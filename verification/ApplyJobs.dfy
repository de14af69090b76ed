/**
Jobs that apply matches to transactions (src/services/blik_application_service.py and
src/services/allegro_application_service.py): how decisions are built, resolved,
sent and accounted for.

A decision names a transaction and one of its matches. The two services name matches
differently, so the naming is a parameter. Firefly's answer to the k-th decision is
an arbitrary function of k: None accepts the update.
*/
module ApplyJobs {
  import opened Wrappers
  import opened Calendar
  import opened Text
  import opened Ledger
  import opened Filters
  import Metrics
  import opened Sorting
  import opened Evidence
  import opened Matching

  type Naming = (int, Item) -> string

  datatype Decision = Decision(transactionId: int, selectedId: string)

  datatype Problem =
    | MatchesNotComputed
    | TransactionNotFound(transactionId: int)
    | InvalidMatchSelection(selectedId: string, transactionId: int)
    | UpdateNotBuilt(message: string)
    | UpdateNotSent(message: string)

  /** Success when there is no problem. */
  datatype Outcome = Outcome(decision: Decision, problem: Option<Problem>)

  datatype Work = Work(
    naming: Naming,
    results: seq<MatchResult>,
    decisions: seq<Decision>,
    answers: nat -> Option<string>)

  // ----- naming matches -----

  /** Allegro names a payment by its short id. */
  function AllegroNaming(): Naming {
    (id: int, item: Item) => if item.OrderPayment? then item.externalShortId else ""
  }

  /** What Blik hashes; the fields are joined with bars. */
  function MatchPayload(transactionId: int, r: Item): string
    requires r.BankRecord?
  {
    JoinWith("|", PayloadParts(transactionId, r))
  }

  function PayloadParts(transactionId: int, r: Item): seq<string>
    requires r.BankRecord?
  {
    [IntText(transactionId), IsoDate(r.date), r.amount.text, r.operationAmount.text, r.recipient, r.details,
     r.sender, r.operationCurrency, r.accountCurrency, r.senderAccount, r.recipientAccount]
  }

  /** `build_blik_match_id`: a shortened hash of the payload, the hash being any function. */
  function BlikNaming(hash: string -> string): Naming {
    (id: int, item: Item) => if item.BankRecord? then Take(hash(MatchPayload(id, item)), 16) else ""
  }

  /** A Blik id is the beginning of the hash, at most sixteen characters long. */
  lemma BlikIdsAreShort(hash: string -> string, id: int, r: Item)
    requires r.BankRecord?
    ensures BlikNaming(hash)(id, r) <= hash(MatchPayload(id, r))
    ensures |BlikNaming(hash)(id, r)| == 16 || BlikNaming(hash)(id, r) == hash(MatchPayload(id, r))
    ensures |BlikNaming(hash)(id, r)| <= 16
  {
    TakeIsASlice(hash(MatchPayload(id, r)), 16);
  }

  // ----- resolving a decision -----

  /** Results by transaction id; a later result replaces an earlier one. */
  function Index(results: seq<MatchResult>): map<int, MatchResult> {
    if results == [] then map[]
    else
      var last := results[|results| - 1];
      Index(results[..|results| - 1])[last.tx.id := last]
  }

  /** The matches of one transaction by name; a later match replaces an earlier one. */
  function Candidates(naming: Naming, transactionId: int, items: seq<Item>): map<string, Item> {
    if items == [] then map[]
    else
      var last := items[|items| - 1];
      Candidates(naming, transactionId, items[..|items| - 1])[naming(transactionId, last) := last]
  }

  datatype Resolved = Resolved(tx: Transaction, item: Item)

  function Resolve(naming: Naming, results: seq<MatchResult>, d: Decision): Result<Resolved, Problem> {
    var index := Index(results);
    if d.transactionId !in index then Err(TransactionNotFound(d.transactionId))
    else
      var found := index[d.transactionId];
      var candidates := Candidates(naming, d.transactionId, found.matches);
      if d.selectedId !in candidates then Err(InvalidMatchSelection(d.selectedId, d.transactionId))
      else Ok(Resolved(found.tx, candidates[d.selectedId]))
  }

  datatype Sent = Sent(transactionId: int, update: TransactionUpdate)

  /** The update a decision leads to, built from the transaction as it was cached. */
  function Prepare(naming: Naming, results: seq<MatchResult>, d: Decision): Result<Sent, Problem> {
    var resolved := Resolve(naming, results, d);
    if resolved.Err? then Err(resolved.error)
    else
      var update := BuildUpdate(resolved.value.item, resolved.value.tx);
      if update.Err? then Err(UpdateNotBuilt(update.error)) else Ok(Sent(resolved.value.tx.id, update.value))
  }

  function OutcomeAt(w: Work, k: nat): Outcome
    requires k < |w.decisions|
  {
    var prepared := Prepare(w.naming, w.results, w.decisions[k]);
    if prepared.Err? then Outcome(w.decisions[k], Some(prepared.error))
    else if w.answers(k).Some? then Outcome(w.decisions[k], Some(UpdateNotSent(w.answers(k).value)))
    else Outcome(w.decisions[k], None)
  }

  function Outcomes(w: Work, k: nat): seq<Outcome>
    requires k <= |w.decisions|
  {
    if k == 0 then [] else Outcomes(w, k - 1) + [OutcomeAt(w, k - 1)]
  }

  /** The updates that Firefly accepted among the first k decisions. */
  function SentBy(w: Work, k: nat): seq<Sent>
    requires k <= |w.decisions|
  {
    if k == 0 then []
    else
      var prepared := Prepare(w.naming, w.results, w.decisions[k - 1]);
      SentBy(w, k - 1) + (if prepared.Ok? && w.answers(k - 1).None? then [prepared.value] else [])
  }

  lemma {:induction false} OutcomesAreInOrder(w: Work, k: nat)
    requires k <= |w.decisions|
    ensures |Outcomes(w, k)| == k
    ensures forall i | 0 <= i < k ::
              Outcomes(w, k)[i] == OutcomeAt(w, i) && Outcomes(w, k)[i].decision == w.decisions[i]
  {
    if k == 0 {
    } else {
      OutcomesAreInOrder(w, k - 1);
    }
  }

  lemma SentOneMore(w: Work, k: nat)
    requires k < |w.decisions|
    ensures var prepared := Prepare(w.naming, w.results, w.decisions[k]);
            && (OutcomeAt(w, k).problem.None? ==> prepared.Ok? && SentBy(w, k + 1) == SentBy(w, k) + [prepared.value])
            && (OutcomeAt(w, k).problem.Some? ==> SentBy(w, k + 1) == SentBy(w, k))
  {
  }

  // ----- accounting -----

  datatype JobStatus = Pending | Running | Done

  /** What a caller polling the job sees. */
  datatype JobView = JobView(status: JobStatus, total: nat, applied: nat, failed: nat, results: seq<Outcome>)

  function Successes(outcomes: seq<Outcome>): (r: nat)
    ensures r <= |outcomes|
  {
    if outcomes == [] then 0
    else Successes(outcomes[..|outcomes| - 1]) + (if outcomes[|outcomes| - 1].problem.None? then 1 else 0)
  }

  lemma SuccessesOneMore(outcomes: seq<Outcome>, o: Outcome)
    ensures Successes(outcomes + [o]) == Successes(outcomes) + (if o.problem.None? then 1 else 0)
  {
    assert (outcomes + [o])[..|outcomes|] == outcomes;
  }

  /** The job after k outcomes were recorded. */
  function Recorded(status: JobStatus, total: nat, outcomes: seq<Outcome>): JobView {
    JobView(status, total, Successes(outcomes), |outcomes| - Successes(outcomes), outcomes)
  }

  /** Everything was applied exactly when no outcome reports a problem. */
  lemma {:induction false} AllAppliedMeansNoProblem(outcomes: seq<Outcome>)
    ensures Successes(outcomes) == |outcomes| <==> forall o | o in outcomes :: o.problem.None?
  {
    if outcomes == [] {
    } else {
      AllAppliedMeansNoProblem(outcomes[..|outcomes| - 1]);
      assert outcomes == outcomes[..|outcomes| - 1] + [outcomes[|outcomes| - 1]];
    }
  }

  /** What Allegro's callers see while the job waits for Firefly's answer to each of the first k decisions. */
  function AllegroPolls(w: Work, k: nat): (r: seq<JobView>)
    requires k <= |w.decisions|
    ensures |r| == k
  {
    if k == 0 then [] else AllegroPolls(w, k - 1) + [Recorded(Running, |w.decisions|, Outcomes(w, k - 1))]
  }

  /** The job is accounted for: every recorded outcome is either applied or failed, and it belongs to its decision. */
  predicate Accounts(v: JobView, decisions: seq<Decision>) {
    && v.applied + v.failed == |v.results| <= v.total == |decisions|
    && v.applied == Successes(v.results)
    && (forall i | 0 <= i < |v.results| :: v.results[i].decision == decisions[i])
    && (v.status == Done ==> |v.results| == v.total)
  }

  lemma {:induction false} PollsShowProgress(w: Work, k: nat, i: nat)
    requires i < k <= |w.decisions|
    ensures AllegroPolls(w, k)[i] == Recorded(Running, |w.decisions|, Outcomes(w, i))
  {
    if i < k - 1 {
      PollsShowProgress(w, k - 1, i);
    }
  }

  /** The k-th poll shows the k outcomes of the first k decisions. */
  lemma PollAccounts(w: Work, i: nat)
    requires i < |w.decisions|
    ensures Accounts(AllegroPolls(w, |w.decisions|)[i], w.decisions)
    ensures |AllegroPolls(w, |w.decisions|)[i].results| == i
  {
    PollsShowProgress(w, |w.decisions|, i);
    OutcomesAreInOrder(w, i);
  }

  /** Whenever an Allegro job is suspended, and when it is done, its counters add up; a job may be empty. */
  lemma AllegroJobAccounts(w: Work)
    ensures forall i | 0 <= i < |w.decisions| ::
              && Accounts(AllegroPolls(w, |w.decisions|)[i], w.decisions)
              && |AllegroPolls(w, |w.decisions|)[i].results| == i
    ensures Accounts(Recorded(Done, |w.decisions|, Outcomes(w, |w.decisions|)), w.decisions)
  {
    forall i: nat | i < |w.decisions|
      ensures Accounts(AllegroPolls(w, |w.decisions|)[i], w.decisions)
      ensures |AllegroPolls(w, |w.decisions|)[i].results| == i
    {
      PollAccounts(w, i);
    }
    OutcomesAreInOrder(w, |w.decisions|);
  }

  /** A Blik job shows no progress while it applies decisions, and all of them at once when it is done. */
  lemma BlikJobAccounts(w: Work)
    ensures Accounts(Recorded(Running, |w.decisions|, []), w.decisions)
    ensures Accounts(Recorded(Done, |w.decisions|, Outcomes(w, |w.decisions|)), w.decisions)
  {
    OutcomesAreInOrder(w, |w.decisions|);
  }

  // ----- automatic decisions -----

  function IsSingle(): MatchResult -> bool {
    (m: MatchResult) => |m.matches| == 1
  }

  function SingleMatches(results: seq<MatchResult>): seq<MatchResult> {
    Filter(IsSingle(), results)
  }

  function Decide(naming: Naming, m: MatchResult): Decision
    requires |m.matches| == 1
  {
    Decision(m.tx.id, naming(m.tx.id, m.matches[0]))
  }

  /** Blik: any limit that is given is a slice, so 0 selects nothing. */
  function BlikSelection(results: seq<MatchResult>, limit: Option<int>): seq<MatchResult> {
    if limit.Some? then Take(SingleMatches(results), limit.value) else SingleMatches(results)
  }

  /** Allegro: a limit of 0 is falsy, so it selects everything. */
  function AllegroSelection(results: seq<MatchResult>, limit: Option<int>): seq<MatchResult> {
    if limit.Some? && limit.value != 0 then Take(SingleMatches(results), limit.value) else SingleMatches(results)
  }

  function DecideAll(naming: Naming, selected: seq<MatchResult>): (r: seq<Decision>)
    requires forall m | m in selected :: |m.matches| == 1
    ensures |r| == |selected| && forall i | 0 <= i < |r| :: r[i] == Decide(naming, selected[i])
  {
    seq(|selected|, i requires 0 <= i < |selected| && selected[i] in selected => Decide(naming, selected[i]))
  }

  /** The services agree on every limit but 0, where one applies nothing and the other applies everything. */
  lemma LimitZeroMeansTheOpposite(results: seq<MatchResult>, limit: Option<int>)
    ensures limit != Some(0) ==> BlikSelection(results, limit) == AllegroSelection(results, limit)
    ensures BlikSelection(results, Some(0)) == [] && AllegroSelection(results, Some(0)) == SingleMatches(results)
    ensures BlikSelection(results, limit) == AllegroSelection(results, limit) <==>
            limit != Some(0) || SingleMatches(results) == []
  {
  }

  /** Selected are the first results with exactly one match; a negative limit leaves out that many of the last. */
  lemma SelectionTakesTheFirst(results: seq<MatchResult>, limit: Option<int>) returns (at: seq<nat>)
    ensures KeptAt(at, SingleMatches(results), (m: MatchResult) => |m.matches| == 1, results)
    ensures BlikSelection(results, limit) <= SingleMatches(results)
    ensures var singles, taken := |SingleMatches(results)|, |BlikSelection(results, limit)|;
            && (limit.None? ==> taken == singles)
            && (limit.Some? && limit.value >= 0 ==> taken == if limit.value < singles then limit.value else singles)
            && (limit.Some? && limit.value < 0 ==>
                  taken == if singles + limit.value > 0 then singles + limit.value else 0)
  {
    FiltersAgree(IsSingle(), (m: MatchResult) => |m.matches| == 1, results);
    at := FilterKeepsPositions((m: MatchResult) => |m.matches| == 1, results);
    if limit.Some? {
      TakeIsASlice(SingleMatches(results), limit.value);
    }
  }

  lemma SelectionsAreSingle(results: seq<MatchResult>, limit: Option<int>, selected: seq<MatchResult>)
    requires selected == BlikSelection(results, limit) || selected == AllegroSelection(results, limit)
    ensures forall m | m in selected :: m in results && |m.matches| == 1
  {
    assert selected <= SingleMatches(results);
  }

  function ResultId(): MatchResult -> int {
    (m: MatchResult) => m.tx.id
  }

  /** The result that decides for a transaction: the last one that holds it. */
  ghost predicate Decides(results: seq<MatchResult>, last: nat, id: int) {
    last < |results| && results[last].tx.id == id && forall j | last < j < |results| :: results[j].tx.id != id
  }

  /** The index answers with the last result of a transaction. */
  lemma {:induction false} IndexIsTheLast(results: seq<MatchResult>, i: nat)
    requires i < |results| && Decides(results, i, results[i].tx.id)
    ensures results[i].tx.id in Index(results) && Index(results)[results[i].tx.id] == results[i]
  {
    if i == |results| - 1 {
    } else {
      IndexIsTheLast(results[..|results| - 1], i);
    }
  }

  /** Among the items of its name, `x` comes last. */
  ghost predicate LastOfItsName(naming: Naming, transactionId: int, items: seq<Item>, x: Item) {
    exists l | 0 <= l < |items| ::
      items[l] == x && forall j | l < j < |items| :: naming(transactionId, items[j]) != naming(transactionId, x)
  }

  lemma LastOfItsNameOneMore(naming: Naming, transactionId: int, init: seq<Item>, last: Item, x: Item)
    ensures LastOfItsName(naming, transactionId, init + [last], x) <==>
            if naming(transactionId, last) == naming(transactionId, x) then last == x
            else LastOfItsName(naming, transactionId, init, x)
  {
    var items := init + [last];
    assert items[|init|] == last;
    if naming(transactionId, last) != naming(transactionId, x) {
      if l :| 0 <= l < |init| && init[l] == x &&
              forall j | l < j < |init| :: naming(transactionId, init[j]) != naming(transactionId, x) {
        assert items[l] == x;
      }
      if l :| 0 <= l < |items| && items[l] == x &&
              forall j | l < j < |items| :: naming(transactionId, items[j]) != naming(transactionId, x) {
        assert init[l] == x && forall j | l < j < |init| :: init[j] == items[j];
      }
    }
  }

  /** The last item of a name is its candidate. */
  lemma {:induction false} CandidateIsTheLast(naming: Naming, transactionId: int, items: seq<Item>, x: Item)
    ensures var name, candidates := naming(transactionId, x), Candidates(naming, transactionId, items);
            name in candidates && candidates[name] == x <==> LastOfItsName(naming, transactionId, items, x)
  {
    if items == [] {
    } else {
      var init, last := items[..|items| - 1], items[|items| - 1];
      assert items == init + [last];
      CandidateIsTheLast(naming, transactionId, init, x);
      LastOfItsNameOneMore(naming, transactionId, init, last, x);
    }
  }

  lemma {:induction false} NamedAmongCandidates(naming: Naming, transactionId: int, items: seq<Item>, name: string)
    ensures name in Candidates(naming, transactionId, items) <==>
            exists item | item in items :: naming(transactionId, item) == name
  {
    if items == [] {
    } else {
      var init, last := items[..|items| - 1], items[|items| - 1];
      assert items == init + [last];
      NamedAmongCandidates(naming, transactionId, init, name);
      assert forall item | item in init :: item in items;
      assert forall item | item in items :: item in init || item == last;
      assert last in items;
    }
  }

  /** Naming an item of the deciding result attaches that very item exactly when it is the last of its name there. */
  lemma SelectionAttachesIff(naming: Naming, results: seq<MatchResult>, last: nat, x: Item)
    requires last < |results| && Decides(results, last, results[last].tx.id)
    ensures var id := results[last].tx.id;
            Resolve(naming, results, Decision(id, naming(id, x))) == Ok(Resolved(results[last].tx, x)) <==>
            LastOfItsName(naming, id, results[last].matches, x)
  {
    IndexIsTheLast(results, last);
    CandidateIsTheLast(naming, results[last].tx.id, results[last].matches, x);
  }

  lemma {:induction false} IndexedIff(results: seq<MatchResult>, id: int)
    ensures id in Index(results) <==> exists m | m in results :: m.tx.id == id
  {
    if results == [] {
    } else {
      var init, last := results[..|results| - 1], results[|results| - 1];
      assert results == init + [last];
      IndexedIff(init, id);
      assert last in results && forall m | m in init :: m in results;
    }
  }

  /** A decision names an unknown transaction, or a match that the deciding result does not hold; nothing else fails. */
  lemma UnresolvedDecisions(naming: Naming, results: seq<MatchResult>, d: Decision)
    ensures Resolve(naming, results, d) == Err(TransactionNotFound(d.transactionId)) <==>
            forall m | m in results :: m.tx.id != d.transactionId
    ensures var r := Resolve(naming, results, d);
            || r.Ok?
            || r == Err(TransactionNotFound(d.transactionId))
            || r == Err(InvalidMatchSelection(d.selectedId, d.transactionId))
    ensures forall last: nat | Decides(results, last, d.transactionId) ::
              Resolve(naming, results, d) == Err(InvalidMatchSelection(d.selectedId, d.transactionId)) <==>
              forall item | item in results[last].matches :: naming(d.transactionId, item) != d.selectedId
  {
    IndexedIff(results, d.transactionId);
    forall last: nat | Decides(results, last, d.transactionId)
      ensures Resolve(naming, results, d) == Err(InvalidMatchSelection(d.selectedId, d.transactionId)) <==>
              forall item | item in results[last].matches :: naming(d.transactionId, item) != d.selectedId
    {
      IndexIsTheLast(results, last);
      NamedAmongCandidates(naming, d.transactionId, results[last].matches, d.selectedId);
    }
  }

  /** Among results of distinct transactions, each one decides for its own. */
  lemma DistinctResultsDecide(results: seq<MatchResult>, m: MatchResult) returns (i: nat)
    requires DistinctBy(ResultId(), results) && m in results
    ensures Decides(results, i, m.tx.id) && results[i] == m
  {
    i :| i < |results| && results[i] == m;
    forall j | i < j < |results| ensures results[j].tx.id != m.tx.id {
      assert ResultId()(results[i]) != ResultId()(results[j]);
    }
  }

  /** What decides in a later part decides in the whole. */
  lemma LaterPartDecides(first: seq<MatchResult>, second: seq<MatchResult>, i: nat, id: int)
    requires i < |second| && Decides(second, i, id)
    ensures Decides(first + second, |first| + i, id) && (first + second)[|first| + i] == second[i]
  {
    var all := first + second;
    assert forall j | |first| + i < j < |all| :: all[j] == second[j - |first|];
  }

  /** With distinct transactions, every automatic decision resolves to the one match it was made from. */
  lemma AutoDecisionsResolve(naming: Naming, results: seq<MatchResult>, m: MatchResult)
    requires DistinctBy(ResultId(), results) && m in results && |m.matches| == 1
    ensures Resolve(naming, results, Decide(naming, m)) == Ok(Resolved(m.tx, m.matches[0]))
  {
    var i := DistinctResultsDecide(results, m);
    assert m.matches[0] == m.matches[0];
    SelectionAttachesIff(naming, results, i, m.matches[0]);
  }

  lemma FetchedIsDistinct(ledger: seq<Transaction>, candidates: seq<Item>, filterText: string, tagDone: string)
    requires DistinctBy(TransactionId(), ledger) && candidates != []
    ensures DistinctBy(ResultId(),
                       ResultsFor(Fetched(ledger, candidates, filterText, FUTURE_DAYS), candidates, tagDone))
  {
    var window := Metrics.InWindow(MinDay(candidates), MaxDay(candidates) + FUTURE_DAYS);
    FilterKeepsDistinct(TransactionId(), window, ledger);
    FilterKeepsDistinct(TransactionId(), Metrics.KeepDescription(filterText, false, false), Filter(window, ledger));
    var txs := Fetched(ledger, candidates, filterText, FUTURE_DAYS);
    var results := ResultsFor(txs, candidates, tagDone);
    forall i, j | 0 <= i < j < |results| ensures ResultId()(results[i]) != ResultId()(results[j]) {
      assert TransactionId()(txs[i]) != TransactionId()(txs[j]);
    }
  }

  /** In particular right after matching against a ledger, whose transactions have distinct ids. */
  lemma FreshMatchesResolve(
    naming: Naming, ledger: seq<Transaction>, candidates: seq<Item>, filterText: string, tagDone: string,
    m: MatchResult)
    requires DistinctBy(TransactionId(), ledger) && candidates != []
    requires m in ResultsFor(Fetched(ledger, candidates, filterText, FUTURE_DAYS), candidates, tagDone)
    requires |m.matches| == 1
    ensures Resolve(naming, ResultsFor(Fetched(ledger, candidates, filterText, FUTURE_DAYS), candidates, tagDone),
                    Decide(naming, m)) == Ok(Resolved(m.tx, m.matches[0]))
    ensures m.matches[0] in candidates && Compare(m.matches[0], m.tx)
  {
    var txs := Fetched(ledger, candidates, filterText, FUTURE_DAYS);
    FetchedIsDistinct(ledger, candidates, filterText, tagDone);
    AutoDecisionsResolve(naming, ResultsFor(txs, candidates, tagDone), m);
    ResultsComeFrom(txs, candidates, tagDone, m);
    assert m.matches[0] in m.matches;
  }

  /** So an automatic job fails only where the update cannot be built or sent. */
  lemma AutoFailuresAreReal(w: Work, selected: seq<MatchResult>, k: nat)
    requires DistinctBy(ResultId(), w.results)
    requires forall m | m in selected :: m in w.results && |m.matches| == 1
    requires w.decisions == DecideAll(w.naming, selected) && k < |selected|
    ensures OutcomeAt(w, k).problem.Some? <==>
            (selected[k].matches[0].OrderPayment? && Join(selected[k].matches[0].lines) == "") || w.answers(k).Some?
    ensures OutcomeAt(w, k).problem.Some? ==>
              OutcomeAt(w, k).problem.value.UpdateNotBuilt? || OutcomeAt(w, k).problem.value.UpdateNotSent?
  {
    AutoDecisionsResolve(w.naming, w.results, selected[k]);
  }

  // ----- overlapping pages -----

  /**
   When a transaction is cached more than once, as overlapping Allegro pages do, the last result for it decides:
   an automatic decision resolves to the match it was made from exactly when that match is the last of its name
   in the deciding result, and resolves to anything at all exactly when that result holds the name.
   */
  lemma TheLastPageDecides(naming: Naming, results: seq<MatchResult>, m: MatchResult, last: nat)
    requires m in results && |m.matches| == 1 && Decides(results, last, m.tx.id)
    ensures Resolve(naming, results, Decide(naming, m)) == Ok(Resolved(results[last].tx, m.matches[0])) <==>
            LastOfItsName(naming, m.tx.id, results[last].matches, m.matches[0])
    ensures Resolve(naming, results, Decide(naming, m)).Ok? <==>
            exists item | item in results[last].matches :: naming(m.tx.id, item) == naming(m.tx.id, m.matches[0])
  {
    SelectionAttachesIff(naming, results, last, m.matches[0]);
    IndexIsTheLast(results, last);
    NamedAmongCandidates(naming, m.tx.id, results[last].matches, naming(m.tx.id, m.matches[0]));
  }

  /** What is cached after two pages of payments were matched against one ledger. */
  function TwoPages(ledger: seq<Transaction>, page1: seq<Item>, page2: seq<Item>, filterText: string, tagDone: string):
    seq<MatchResult>
    requires page1 != [] && page2 != []
  {
    ResultsFor(Fetched(ledger, page1, filterText, FUTURE_DAYS), page1, tagDone) +
    ResultsFor(Fetched(ledger, page2, filterText, FUTURE_DAYS), page2, tagDone)
  }

  /** A transaction of the ledger that both pages' windows hold. */
  ghost predicate InBothWindows(
    ledger: seq<Transaction>, page1: seq<Item>, page2: seq<Item>, filterText: string, tx: Transaction)
    requires page1 != [] && page2 != []
  {
    && DistinctBy(TransactionId(), ledger)
    && tx in Fetched(ledger, page1, filterText, FUTURE_DAYS)
    && tx in Fetched(ledger, page2, filterText, FUTURE_DAYS)
  }

  lemma TheSecondPageDecides(
    ledger: seq<Transaction>, page1: seq<Item>, page2: seq<Item>, filterText: string, tagDone: string, tx: Transaction)
    returns (last: nat)
    requires page1 != [] && page2 != [] && InBothWindows(ledger, page1, page2, filterText, tx)
    ensures var results := TwoPages(ledger, page1, page2, filterText, tagDone);
            && Decides(results, last, tx.id)
            && results[last] == ResultFor(tx, page2, tagDone)
            && ResultFor(tx, page1, tagDone) in results
  {
    var txs1, txs2 := Fetched(ledger, page1, filterText, FUTURE_DAYS), Fetched(ledger, page2, filterText, FUTURE_DAYS);
    ResultIsPresent(txs1, page1, tagDone, tx);
    ResultIsPresent(txs2, page2, tagDone, tx);
    FetchedIsDistinct(ledger, page2, filterText, tagDone);
    var first, second := ResultsFor(txs1, page1, tagDone), ResultsFor(txs2, page2, tagDone);
    last := DistinctResultsDecide(second, ResultFor(tx, page2, tagDone));
    LaterPartDecides(first, second, last, tx.id);
    last := |first| + last;
  }

  /**
   For any ledger and any two pages whose windows share a transaction: the automatic decision for the first page's
   single match resolves to that match exactly when the second page matches it too, as the last of its name.
   */
  lemma TwoPagesResolveIff(naming: Naming, ledger: seq<Transaction>, page1: seq<Item>, page2: seq<Item>,
                           filterText: string, tagDone: string, tx: Transaction)
    requires page1 != [] && page2 != [] && InBothWindows(ledger, page1, page2, filterText, tx)
    requires |ResultFor(tx, page1, tagDone).matches| == 1
    ensures var m, results := ResultFor(tx, page1, tagDone), TwoPages(ledger, page1, page2, filterText, tagDone);
            && m in SingleMatches(results)
            && (Resolve(naming, results, Decide(naming, m)) == Ok(Resolved(tx, m.matches[0])) <==>
                LastOfItsName(naming, tx.id, Filter(FitsTransaction(tx), page2), m.matches[0]))
  {
    var last := TheSecondPageDecides(ledger, page1, page2, filterText, tagDone, tx);
    TheLastPageDecides(naming, TwoPages(ledger, page1, page2, filterText, tagDone), ResultFor(tx, page1, tagDone),
                       last);
  }

  /** It fails when nothing on the second page matches the transaction. */
  lemma OverlappingPagesBreakAutoApply(naming: Naming, ledger: seq<Transaction>, page1: seq<Item>, page2: seq<Item>,
                                       filterText: string, tagDone: string, tx: Transaction)
    requires page1 != [] && page2 != [] && InBothWindows(ledger, page1, page2, filterText, tx)
    requires |ResultFor(tx, page1, tagDone).matches| == 1
    requires forall item | item in page2 :: !Compare(item, tx)
    ensures var d := Decide(naming, ResultFor(tx, page1, tagDone));
            Resolve(naming, TwoPages(ledger, page1, page2, filterText, tagDone), d) ==
            Err(InvalidMatchSelection(d.selectedId, tx.id))
  {
    var last := TheSecondPageDecides(ledger, page1, page2, filterText, tagDone, tx);
    IndexIsTheLast(TwoPages(ledger, page1, page2, filterText, tagDone), last);
    NothingFits(tx, page2);
  }

  /** It attaches another payment when the second page ends with one of the same name. */
  lemma CollidingPagesAttachTheOther(naming: Naming, ledger: seq<Transaction>, page1: seq<Item>, page2: seq<Item>,
                                     filterText: string, tagDone: string, tx: Transaction, q: Item)
    requires page1 != [] && page2 != [] && InBothWindows(ledger, page1, page2, filterText, tx)
    requires |ResultFor(tx, page1, tagDone).matches| == 1
    requires naming(tx.id, q) == naming(tx.id, ResultFor(tx, page1, tagDone).matches[0])
    requires LastOfItsName(naming, tx.id, Filter(FitsTransaction(tx), page2), q)
    ensures Resolve(naming, TwoPages(ledger, page1, page2, filterText, tagDone),
                    Decide(naming, ResultFor(tx, page1, tagDone))) == Ok(Resolved(tx, q))
  {
    var last := TheSecondPageDecides(ledger, page1, page2, filterText, tagDone, tx);
    SelectionAttachesIff(naming, TwoPages(ledger, page1, page2, filterText, tagDone), last, q);
  }

  /** One payment cached under two pages with different details. */
  const FIRST_VERSION: Item := LATE_PAYMENT
  const SECOND_VERSION: Item := LATE_PAYMENT.(lines := ["y"])

  /** Such pages exist: the decision made for one version of a payment attaches the other. */
  lemma TwoVersionsOfOnePayment()
    ensures FIRST_VERSION != SECOND_VERSION && Compare(FIRST_VERSION, LATE_TX) && Compare(SECOND_VERSION, LATE_TX)
    ensures InBothWindows([LATE_TX], [FIRST_VERSION], [SECOND_VERSION], "", LATE_TX)
    ensures ResultFor(LATE_TX, [FIRST_VERSION], ALLEGRO_DONE).matches == [FIRST_VERSION]
    ensures Resolve(AllegroNaming(), TwoPages([LATE_TX], [FIRST_VERSION], [SECOND_VERSION], "", ALLEGRO_DONE),
                    Decide(AllegroNaming(), ResultFor(LATE_TX, [FIRST_VERSION], ALLEGRO_DONE))) ==
            Ok(Resolved(LATE_TX, SECOND_VERSION))
  {
    LatePaymentFits(FIRST_VERSION);
    LatePaymentFits(SECOND_VERSION);
    assert Filter(FitsTransaction(LATE_TX), [SECOND_VERSION])[0] == SECOND_VERSION;
    assert FIRST_VERSION.lines[0] != SECOND_VERSION.lines[0];
    CollidingPagesAttachTheOther(AllegroNaming(), [LATE_TX], [FIRST_VERSION], [SECOND_VERSION], "", ALLEGRO_DONE,
                                 LATE_TX, SECOND_VERSION);
  }

  lemma LatePaymentFits(p: Item)
    requires p.OrderPayment? && p.date == LATE_PAYMENT.date && p.amount == LATE_PAYMENT.amount
    ensures Compare(p, LATE_TX)
    ensures LATE_TX in Fetched([LATE_TX], [p], "", FUTURE_DAYS)
    ensures Filter(FitsTransaction(LATE_TX), [p]) == [p]
  {
    assert Ordinal(LATE_TX.date) == Ordinal(LATE_PAYMENT.date) + 6;
    assert [p][0] == p && [LATE_TX][0] == LATE_TX;
    assert MinDay([p]) == Ordinal(p.date) == MaxDay([p]);
    assert OccursAt(Lower(""), Lower(""), 0);
    FilterOneMore(FitsTransaction(LATE_TX), [], p);
    assert [] + [p] == [p];
  }

  // ----- match ids -----

  /** A record whose printed fields contain no bar. */
  predicate BarFree(r: Item)
    requires r.BankRecord?
  {
    && '|' !in r.amount.text && '|' !in r.operationAmount.text && '|' !in r.recipient && '|' !in r.details
    && '|' !in r.sender && '|' !in r.operationCurrency && '|' !in r.accountCurrency
    && '|' !in r.senderAccount && '|' !in r.recipientAccount
  }

  /** Without bars in the fields, the payload determines everything it is made of. */
  lemma BarFreePayloadsAreUnambiguous(id: int, r: Item, s: Item)
    requires r.BankRecord? && s.BankRecord? && BarFree(r) && BarFree(s)
    requires MatchPayload(id, r) == MatchPayload(id, s)
    ensures PayloadParts(id, r) == PayloadParts(id, s)
  {
    IntTextIsPlain(id);
    JoinIsInjective('|', PayloadParts(id, r), PayloadParts(id, s));
  }

  /** The shortened hash keeps the payloads of these records apart. */
  ghost predicate NoCollisions(hash: string -> string, id: int, items: seq<Item>) {
    forall r, s | r in items && s in items && r.BankRecord? && s.BankRecord? ::
      BlikNaming(hash)(id, r) == BlikNaming(hash)(id, s) ==> MatchPayload(id, r) == MatchPayload(id, s)
  }

  /**
   Selecting a record of the deciding result attaches one that prints the same in every field, as long as no field
   contains a bar and the shortened hash does not collide; it attaches the very record exactly when it is the last
   of its id.
   */
  lemma SelectedRecordIsAttached(hash: string -> string, results: seq<MatchResult>, last: nat, r: Item)
    requires last < |results| && Decides(results, last, results[last].tx.id) && r in results[last].matches
    requires forall s | s in results[last].matches :: s.BankRecord? && BarFree(s)
    requires NoCollisions(hash, results[last].tx.id, results[last].matches)
    ensures var id := results[last].tx.id;
            var resolved := Resolve(BlikNaming(hash), results, Decision(id, BlikNaming(hash)(id, r)));
            && resolved.Ok? && resolved.value.item in results[last].matches
            && PayloadParts(id, resolved.value.item) == PayloadParts(id, r)
            && (resolved.value.item == r <==> LastOfItsName(BlikNaming(hash), id, results[last].matches, r))
  {
    var id, items := results[last].tx.id, results[last].matches;
    IndexIsTheLast(results, last);
    SelectionAttachesIff(BlikNaming(hash), results, last, r);
    NamedAmongCandidates(BlikNaming(hash), id, items, BlikNaming(hash)(id, r));
    CandidateHasTheName(BlikNaming(hash), id, items, BlikNaming(hash)(id, r));
    BarFreePayloadsAreUnambiguous(id, Candidates(BlikNaming(hash), id, items)[BlikNaming(hash)(id, r)], r);
  }

  lemma {:induction false} CandidateHasTheName(naming: Naming, transactionId: int, items: seq<Item>, name: string)
    requires name in Candidates(naming, transactionId, items)
    ensures var found := Candidates(naming, transactionId, items)[name];
            found in items && naming(transactionId, found) == name
  {
    var init, last := items[..|items| - 1], items[|items| - 1];
    assert items == init + [last];
    if naming(transactionId, last) != name {
      CandidateHasTheName(naming, transactionId, init, name);
    }
  }

  /**
   The bars do not delimit: two different records whose fields contain bars can share a payload, hence a name
   under every hash, and then selecting the first one attaches the second.
   */
  lemma SelectingOneRecordCanAttachAnother(
    hash: string -> string, tx: Transaction, r: Item, s: Item, status: MatchStatus)
    requires r.BankRecord? && s == r.(recipient := "a", details := "b|c") && r.recipient == "a|b" && r.details == "c"
    ensures r != s
    ensures BlikNaming(hash)(tx.id, r) == BlikNaming(hash)(tx.id, s)
    ensures Resolve(BlikNaming(hash), [MatchResult(tx, [r, s], status)], Decision(tx.id, BlikNaming(hash)(tx.id, r))) ==
            Ok(Resolved(tx, s))
  {
    BarsShiftFields(tx.id, r, s);
    assert [r, s][1] == s;
    SelectionAttachesIff(BlikNaming(hash), [MatchResult(tx, [r, s], status)], 0, s);
  }

  lemma BarsShiftFields(id: int, r: Item, s: Item)
    requires r.BankRecord? && s == r.(recipient := "a", details := "b|c") && r.recipient == "a|b" && r.details == "c"
    ensures MatchPayload(id, r) == MatchPayload(id, s)
  {
    var before := [IntText(id), IsoDate(r.date), r.amount.text, r.operationAmount.text];
    var after := [r.sender, r.operationCurrency, r.accountCurrency, r.senderAccount, r.recipientAccount];
    BarIsASeparator(before);
    SameTail(before + ["a|b", "c"], before + ["a", "b|c"], after);
    assert PayloadParts(id, r) == before + ["a|b", "c"] + after;
    assert PayloadParts(id, s) == before + ["a", "b|c"] + after;
  }

  lemma BarIsASeparator(before: seq<string>)
    requires before != []
    ensures JoinWith("|", before + ["a|b", "c"]) == JoinWith("|", before + ["a", "b|c"])
  {
    var x, y := before + ["a|b", "c"], before + ["a", "b|c"];
    assert x[..|x| - 1] == before + ["a|b"] && (before + ["a|b"])[..|before|] == before;
    assert y[..|y| - 1] == before + ["a"] && (before + ["a"])[..|before|] == before;
    assert "|" + "a|b" + "|" + "c" == "|" + "a" + "|" + "b|c";
    var j := JoinWith("|", before);
    assert JoinWith("|", x) == j + "|" + "a|b" + "|" + "c" == j + ("|" + "a|b" + "|" + "c");
    assert JoinWith("|", y) == j + "|" + "a" + "|" + "b|c" == j + ("|" + "a" + "|" + "b|c");
  }

  lemma {:induction false} SameTail(x: seq<string>, y: seq<string>, after: seq<string>)
    requires x != [] && y != [] && JoinWith("|", x) == JoinWith("|", y)
    ensures JoinWith("|", x + after) == JoinWith("|", y + after)
    decreases |after|
  {
    if after == [] {
      assert x + after == x && y + after == y;
    } else {
      var init := after[..|after| - 1];
      assert (x + after)[..|x + after| - 1] == x + init && (y + after)[..|y + after| - 1] == y + init;
      SameTail(x, y, init);
    }
  }
}
