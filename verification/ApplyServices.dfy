/**
The mutable side of applying matches: the job records that callers poll
(src/services/domain/allegro.py and blik.py), the two loops that work a job off, and
the paged match cache (src/services/allegro_state_store.py).
*/
module ApplyServices {
  import opened Wrappers
  import opened Ledger
  import opened Evidence
  import opened Filters
  import opened Matching
  import opened ApplyJobs

  /** AllegroApplyJob and BlikApplyJob: the counters and outcomes that callers poll. */
  class ApplyJob {
    var status: JobStatus
    const total: nat
    var applied: nat
    var failed: nat
    var results: seq<Outcome>

    ghost function View(): JobView
      reads this
    {
      JobView(status, total, applied, failed, results)
    }

    constructor (total: nat)
      ensures View() == Recorded(Pending, total, [])
    {
      this.status, this.total, this.applied, this.failed, this.results := Pending, total, 0, 0, [];
    }

    method Record(o: Outcome)
      requires applied == Successes(results) && applied + failed == |results|
      modifies this
      ensures View() == Recorded(old(status), total, old(results) + [o])
    {
      SuccessesOneMore(results, o);
      if o.problem.None? {
        applied := applied + 1;
      } else {
        failed := failed + 1;
      }
      results := results + [o];
    }
  }

  /** Resolving, building and sending one decision; `answer` is what Firefly says if it is asked. */
  method Apply(index: map<int, MatchResult>, w: Work, k: nat) returns (o: Outcome, sent: seq<Sent>)
    requires k < |w.decisions| && index == Index(w.results)
    ensures o == OutcomeAt(w, k)
    ensures SentBy(w, k + 1) == SentBy(w, k) + sent
  {
    var d := w.decisions[k];
    sent := [];
    if d.transactionId !in index {
      return Outcome(d, Some(TransactionNotFound(d.transactionId))), [];
    }
    var found := index[d.transactionId];
    var candidates := Candidates(w.naming, d.transactionId, found.matches);
    if d.selectedId !in candidates {
      return Outcome(d, Some(InvalidMatchSelection(d.selectedId, d.transactionId))), [];
    }
    var update := BuildUpdate(candidates[d.selectedId], found.tx);
    if update.Err? {
      return Outcome(d, Some(UpdateNotBuilt(update.error))), [];
    }
    var answer := w.answers(k);
    if answer.Some? {
      return Outcome(d, Some(UpdateNotSent(answer.value))), [];
    }
    o := Outcome(d, None);
    sent := [Sent(found.tx.id, update.value)];
  }

  /** A running Allegro job after k decisions: what it shows, what was sent, and what was shown before. */
  ghost predicate Progress(v: JobView, w: Work, k: nat, sent: seq<Sent>, polled: seq<JobView>) {
    && k <= |w.decisions|
    && v == Recorded(Running, |w.decisions|, Outcomes(w, k))
    && sent == SentBy(w, k)
    && polled == AllegroPolls(w, k)
  }

  /** The loop body of Allegro's `_run_apply_job`. */
  method WorkOff(
    job: ApplyJob, index: map<int, MatchResult>, w: Work, k: nat, sent: seq<Sent>, ghost polled: seq<JobView>)
    returns (more: seq<Sent>, ghost morePolled: seq<JobView>)
    requires k < |w.decisions| && index == Index(w.results) && Progress(job.View(), w, k, sent, polled)
    modifies job
    ensures Progress(job.View(), w, k + 1, more, morePolled)
  {
    morePolled := polled + [job.View()];
    var o, s := Apply(index, w, k);
    job.Record(o);
    more := sent + s;
  }

  /**
   Allegro's `_run_apply_job`: counters move after every decision. `polled` collects what a caller can see
   whenever the job is suspended in a call to Firefly.
   */
  method RunAllegroJob(job: ApplyJob, w: Work) returns (sent: seq<Sent>, ghost polled: seq<JobView>)
    requires job.View() == Recorded(Pending, |w.decisions|, [])
    modifies job
    ensures job.View() == Recorded(Done, |w.decisions|, Outcomes(w, |w.decisions|))
    ensures sent == SentBy(w, |w.decisions|)
    ensures polled == AllegroPolls(w, |w.decisions|)
  {
    job.status := Running;
    sent, polled := [], [];
    var index := Index(w.results);
    for k := 0 to |w.decisions|
      invariant Progress(job.View(), w, k, sent, polled)
    {
      sent, polled := WorkOff(job, index, w, k, sent, polled);
    }
    job.status := Done;
  }

  /** Blik's `_apply_decisions`: outcomes are kept aside; the job is not touched. */
  method ApplyDecisions(job: ApplyJob, w: Work)
    returns (outcomes: seq<Outcome>, sent: seq<Sent>, ghost polled: seq<JobView>)
    ensures outcomes == Outcomes(w, |w.decisions|) && sent == SentBy(w, |w.decisions|)
    ensures |polled| == |w.decisions| && forall v | v in polled :: v == job.View()
  {
    outcomes, sent, polled := [], [], [];
    var index := Index(w.results);
    for k := 0 to |w.decisions|
      invariant outcomes == Outcomes(w, k) && sent == SentBy(w, k)
      invariant |polled| == k && forall v | v in polled :: v == job.View()
    {
      polled := polled + [job.View()];
      var o, s := Apply(index, w, k);
      outcomes, sent := outcomes + [o], sent + s;
    }
  }

  /** The loop that moves the counters, outcome by outcome. */
  method RecordAll(job: ApplyJob, outcomes: seq<Outcome>)
    requires job.View() == Recorded(Running, job.total, [])
    modifies job
    ensures job.View() == Recorded(Running, job.total, outcomes)
  {
    for i := 0 to |outcomes|
      invariant job.View() == Recorded(Running, job.total, outcomes[..i])
    {
      assert outcomes[..i + 1] == outcomes[..i] + [outcomes[i]];
      job.Record(outcomes[i]);
    }
    assert outcomes[..|outcomes|] == outcomes;
  }

  /** Blik's `_run_apply_job`: counters move only after the last decision, without a suspension in between. */
  method RunBlikJob(job: ApplyJob, w: Work) returns (sent: seq<Sent>, ghost polled: seq<JobView>)
    requires job.View() == Recorded(Pending, |w.decisions|, [])
    modifies job
    ensures job.View() == Recorded(Done, |w.decisions|, Outcomes(w, |w.decisions|))
    ensures sent == SentBy(w, |w.decisions|)
    ensures forall v | v in polled :: v == Recorded(Running, |w.decisions|, [])
  {
    job.status := Running;
    var outcomes;
    outcomes, sent, polled := ApplyDecisions(job, w);
    RecordAll(job, outcomes);
    job.status := Done;
  }

  // ----- the paged match cache -----

  datatype Page = Page(limit: int, offset: int)

  datatype PageEntry = PageEntry(page: Page, login: string, payments: seq<Item>, matches: seq<MatchResult>)

  /** An insertion-ordered dictionary of pages: replacing a page keeps its place. */
  datatype PageCache = PageCache(order: seq<Page>, entries: map<Page, PageEntry>)

  ghost predicate ProperCache(c: PageCache) {
    && c.order != []
    && (forall p :: p in c.order <==> p in c.entries)
    && Distinct(c.order)
  }

  function PutPage(c: PageCache, entry: PageEntry): PageCache {
    PageCache(if entry.page in c.entries then c.order else c.order + [entry.page], c.entries[entry.page := entry])
  }

  function Without(order: seq<Page>, page: Page): (r: seq<Page>)
    ensures forall p :: p in r <==> p in order && p != page
  {
    if order == [] then []
    else if order[0] == page then Without(order[1..], page)
    else [order[0]] + Without(order[1..], page)
  }

  lemma {:induction false} WithoutStaysDistinct(order: seq<Page>, page: Page)
    requires Distinct(order)
    ensures Distinct(Without(order, page))
  {
    if order == [] {
    } else {
      WithoutStaysDistinct(order[1..], page);
      assert order[0] !in Without(order[1..], page);
    }
  }

  function MatchesOf(entries: map<Page, PageEntry>, order: seq<Page>): seq<MatchResult> {
    if order == [] then []
    else
      var last := order[|order| - 1];
      MatchesOf(entries, order[..|order| - 1]) + (if last in entries then entries[last].matches else [])
  }

  class AllegroStateStore {
    var pageMatchesCache: map<string, PageCache>

    ghost predicate Valid()
      reads this
    {
      forall secret | secret in pageMatchesCache :: ProperCache(pageMatchesCache[secret])
    }

    /** The flat view: what is cached for one page of one secret. */
    ghost function Cached(secret: string, page: Page): Option<PageEntry>
      reads this
    {
      if secret in pageMatchesCache && page in pageMatchesCache[secret].entries
      then Some(pageMatchesCache[secret].entries[page]) else None
    }

    ghost function Order(secret: string): seq<Page>
      reads this
    {
      if secret in pageMatchesCache then pageMatchesCache[secret].order else []
    }

    ghost function AllMatches(secret: string): seq<MatchResult>
      reads this
    {
      if secret !in pageMatchesCache then []
      else MatchesOf(pageMatchesCache[secret].entries, pageMatchesCache[secret].order)
    }

    constructor ()
      ensures Valid() && pageMatchesCache == map[]
    {
      pageMatchesCache := map[];
    }

    method PutPageMatches(secret: string, entry: PageEntry)
      requires Valid()
      modifies this
      ensures Valid()
      ensures forall s, p :: Cached(s, p) == if s == secret && p == entry.page then Some(entry) else old(Cached(s, p))
      ensures forall s :: Order(s) ==
                if s == secret && old(Cached(secret, entry.page)).None?
                then old(Order(s)) + [entry.page] else old(Order(s))
    {
      if secret !in pageMatchesCache {
        pageMatchesCache := pageMatchesCache[secret := PageCache([], map[])];
      }
      pageMatchesCache := pageMatchesCache[secret := PutPage(pageMatchesCache[secret], entry)];
    }

    method GetPageMatches(secret: string, page: Page) returns (r: Option<seq<MatchResult>>)
      ensures r == if Cached(secret, page).Some? then Some(Cached(secret, page).value.matches) else None
    {
      if secret !in pageMatchesCache || page !in pageMatchesCache[secret].entries {
        return None;
      }
      r := Some(pageMatchesCache[secret].entries[page].matches);
    }

    method GetAllMatches(secret: string) returns (matches: seq<MatchResult>)
      requires Valid()
      ensures matches == AllMatches(secret)
    {
      matches := [];
      if secret !in pageMatchesCache {
        return;
      }
      var cache := pageMatchesCache[secret];
      for i := 0 to |cache.order|
        invariant matches == MatchesOf(cache.entries, cache.order[..i])
      {
        assert cache.order[i] in cache.order;
        assert cache.order[..i + 1][..i] == cache.order[..i];
        matches := matches + cache.entries[cache.order[i]].matches;
      }
      assert cache.order[..|cache.order|] == cache.order;
    }

    method InvalidatePage(secret: string, page: Page) returns (removed: bool)
      requires Valid()
      modifies this
      ensures Valid()
      ensures removed == old(Cached(secret, page)).Some?
      ensures forall s, p :: Cached(s, p) == if s == secret && p == page then None else old(Cached(s, p))
      ensures forall s :: Order(s) == if s == secret then Without(old(Order(s)), page) else old(Order(s))
    {
      if secret !in pageMatchesCache || page !in pageMatchesCache[secret].entries {
        WithoutNothing(Order(secret), page);
        return false;
      }
      var c := pageMatchesCache[secret];
      WithoutStaysDistinct(c.order, page);
      var less := PageCache(Without(c.order, page), c.entries - {page});
      pageMatchesCache := pageMatchesCache[secret := less];
      if less.order == [] {
        assert forall p :: p in c.entries ==> p == page;
        pageMatchesCache := pageMatchesCache - {secret};
      }
      removed := true;
    }

    method InvalidateSecret(secret: string) returns (removed: bool)
      requires Valid()
      modifies this
      ensures Valid()
      ensures removed == old(secret in pageMatchesCache)
      ensures pageMatchesCache == old(pageMatchesCache) - {secret}
    {
      if secret !in pageMatchesCache {
        return false;
      }
      pageMatchesCache := pageMatchesCache - {secret};
      removed := true;
    }

    method InvalidateAll()
      modifies this
      ensures Valid() && pageMatchesCache == map[]
    {
      pageMatchesCache := map[];
    }
  }

  lemma {:induction false} WithoutNothing(order: seq<Page>, page: Page)
    requires page !in order
    ensures Without(order, page) == order
  {
    if order == [] {
    } else {
      WithoutNothing(order[1..], page);
    }
  }

  /** A secret is cached exactly when some page of it is: no secret keeps an empty page cache. */
  lemma NoEmptyPageCaches(store: AllegroStateStore, secret: string)
    requires store.Valid()
    ensures secret in store.pageMatchesCache <==> exists p :: store.Cached(secret, p).Some?
  {
    if secret in store.pageMatchesCache {
      var c := store.pageMatchesCache[secret];
      assert c.order[0] in c.order;
      assert store.Cached(secret, c.order[0]).Some?;
    }
  }

  // ----- starting an automatic job -----

  /** Allegro's `start_auto_apply_single_matches`, up to the point where the job is scheduled. */
  method StartAllegroAutoApply(store: AllegroStateStore, secret: string, limit: Option<int>)
    returns (r: Result<seq<Decision>, Problem>)
    requires store.Valid()
    ensures var all := store.AllMatches(secret);
            && (r.Err? <==> all == []) && (r.Err? ==> r.error == MatchesNotComputed)
            && (r.Ok? ==> (forall m | m in AllegroSelection(all, limit) :: |m.matches| == 1)
                          && r.value == DecideAll(AllegroNaming(), AllegroSelection(all, limit)))
  {
    var matches := store.GetAllMatches(secret);
    if matches == [] {
      return Err(MatchesNotComputed);
    }
    SelectionsAreSingle(matches, limit, AllegroSelection(matches, limit));
    r := Ok(DecideAll(AllegroNaming(), AllegroSelection(matches, limit)));
  }

  /** Blik's; `matches` is what the state store holds for the file, or nothing. */
  method StartBlikAutoApply(hash: string -> string, matches: seq<MatchResult>, limit: Option<int>)
    returns (r: Result<seq<Decision>, Problem>)
    ensures r.Err? <==> matches == []
    ensures r.Err? ==> r.error == MatchesNotComputed
    ensures r.Ok? ==> (forall m | m in BlikSelection(matches, limit) :: |m.matches| == 1)
                      && r.value == DecideAll(BlikNaming(hash), BlikSelection(matches, limit))
  {
    if matches == [] {
      return Err(MatchesNotComputed);
    }
    SelectionsAreSingle(matches, limit, BlikSelection(matches, limit));
    r := Ok(DecideAll(BlikNaming(hash), BlikSelection(matches, limit)));
  }

  // ----- which page decides -----

  lemma {:induction false} IndexMerges(a: seq<MatchResult>, b: seq<MatchResult>)
    ensures Index(a + b) == Index(a) + Index(b)
    decreases |b|
  {
    if b == [] {
      assert a + b == a;
    } else {
      assert (a + b)[..|a + b| - 1] == a + b[..|b| - 1];
      IndexMerges(a, b[..|b| - 1]);
    }
  }

  lemma {:induction false} OtherPagesStay(entries: map<Page, PageEntry>, order: seq<Page>, entry: PageEntry)
    requires entry.page !in order
    ensures MatchesOf(entries[entry.page := entry], order) == MatchesOf(entries, order)
  {
    if order == [] {
    } else {
      assert order[|order| - 1] in order;
      OtherPagesStay(entries, order[..|order| - 1], entry);
    }
  }

  /**
   Fetching a page again does not move it: as long as the page fetched last still holds a transaction, that
   page, and not the fresh one, decides how the transaction's decisions resolve.
   */
  lemma RefetchingDoesNotMoveAPage(c: PageCache, entry: PageEntry, id: int)
    requires ProperCache(c) && entry.page in c.entries && entry.page != c.order[|c.order| - 1]
    requires id in Index(c.entries[c.order[|c.order| - 1]].matches)
    ensures var after := PutPage(c, entry);
            id in Index(MatchesOf(after.entries, after.order)) &&
            Index(MatchesOf(after.entries, after.order))[id] == Index(c.entries[c.order[|c.order| - 1]].matches)[id]
  {
    var after := PutPage(c, entry);
    var last := c.order[|c.order| - 1];
    assert last in c.order;
    IndexMerges(MatchesOf(after.entries, c.order[..|c.order| - 1]), c.entries[last].matches);
  }

  /** A page fetched for the first time decides for every transaction it holds. */
  lemma ANewPageDecides(c: PageCache, entry: PageEntry, id: int)
    requires entry.page !in c.entries && id in Index(entry.matches)
    requires forall p :: p in c.order <==> p in c.entries
    ensures var after := PutPage(c, entry);
            Index(MatchesOf(after.entries, after.order)) == Index(MatchesOf(c.entries, c.order)) + Index(entry.matches)
  {
    var after := PutPage(c, entry);
    assert after.order[..|c.order|] == c.order;
    OtherPagesStay(c.entries, c.order, entry);
    IndexMerges(MatchesOf(c.entries, c.order), entry.matches);
  }
}
