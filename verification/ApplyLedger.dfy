/**
What a job leaves behind in the ledger: Firefly applies the accepted updates one by one,
each built from the transaction as it was cached
(src/services/allegro_application_service.py, src/services/firefly_enrichment_service.py).
*/
module ApplyLedger {
  import opened Wrappers
  import opened Text
  import opened Ledger
  import opened Evidence
  import opened Filters
  import opened Matching
  import opened ApplyJobs

  /** Firefly applies the accepted updates one by one. */
  function Deliver(ledger: map<int, Transaction>, sent: seq<Sent>): (r: map<int, Transaction>)
    ensures r.Keys == ledger.Keys
  {
    if sent == [] then ledger
    else
      var before, last := Deliver(ledger, sent[..|sent| - 1]), sent[|sent| - 1];
      if last.transactionId in before
      then before[last.transactionId := ApplyUpdate(before[last.transactionId], last.update)]
      else before
  }

  /** The later update wins, field by field. */
  function Combine(first: TransactionUpdate, second: TransactionUpdate): TransactionUpdate {
    TransactionUpdate(
      if second.description.Some? then second.description else first.description,
      if second.notes.Some? then second.notes else first.notes,
      if second.tags.Some? then second.tags else first.tags)
  }

  function Net(sent: seq<Sent>, id: int): TransactionUpdate {
    if sent == [] then TransactionUpdate(None, None, None)
    else
      var before, last := Net(sent[..|sent| - 1], id), sent[|sent| - 1];
      if last.transactionId == id then Combine(before, last.update) else before
  }

  lemma {:induction false} DeliveredNet(ledger: map<int, Transaction>, sent: seq<Sent>, id: int)
    requires id in ledger
    ensures Deliver(ledger, sent)[id] == ApplyUpdate(ledger[id], Net(sent, id))
  {
    if sent == [] {
    } else {
      DeliveredNet(ledger, sent[..|sent| - 1], id);
    }
  }

  /**
   Updates are built from the cached transactions, not from Firefly's, so running the same job again with the
   same answers sends the same updates and leaves the ledger as it was.
   */
  lemma ReplayingAJobIsANoOp(w: Work, ledger: map<int, Transaction>)
    ensures var sent := SentBy(w, |w.decisions|);
            Deliver(Deliver(ledger, sent), sent) == Deliver(ledger, sent)
  {
    var sent := SentBy(w, |w.decisions|);
    forall id | id in ledger ensures Deliver(Deliver(ledger, sent), sent)[id] == Deliver(ledger, sent)[id] {
      DeliveredNet(ledger, sent, id);
      DeliveredNet(Deliver(ledger, sent), sent, id);
    }
  }

  /** A job touches no transaction it sent no update for. */
  lemma {:induction false} OthersStay(ledger: map<int, Transaction>, sent: seq<Sent>, id: int)
    requires id in ledger && forall s | s in sent :: s.transactionId != id
    ensures Deliver(ledger, sent)[id] == ledger[id]
  {
    if sent == [] {
    } else {
      assert sent[|sent| - 1] in sent;
      OthersStay(ledger, sent[..|sent| - 1], id);
    }
  }

  // ----- two payments of one transaction -----

  /** The updates of two payments applied one after the other, both built from the same cached transaction. */
  ghost predicate BothSent(tx: Transaction, p: Item, q: Item, sent: seq<Sent>) {
    && p.OrderPayment? && q.OrderPayment? && Join(p.lines) != "" && Join(q.lines) != ""
    && sent == [Sent(tx.id, BuildUpdate(p, tx).value), Sent(tx.id, BuildUpdate(q, tx).value)]
  }

  /**
   When the first payment survives, as seen from the cached transaction and Firefly's own. If the cached notes do
   not hold the second payment, its note replaces the first one's and must happen to contain it. If they do, the
   first note stays, or none was written and Firefly's notes decide. Its tag must survive in either case.
   */
  predicate FirstSurvives(tx: Transaction, remote: Transaction, p: Item, q: Item)
    requires p.OrderPayment? && q.OrderPayment?
  {
    && (p.tagDone == q.tagDone || p.tagDone in tx.tags)
    && (if Noted(tx, q) then !Noted(tx, p) || Noted(remote, p)
        else Contains(Lower(AddLine(tx.notes, Join(q.lines))), Lower(Join(p.lines))))
  }

  lemma AfterBoth(tx: Transaction, p: Item, q: Item, sent: seq<Sent>, ledger: map<int, Transaction>)
    requires BothSent(tx, p, q, sent) && tx.id in ledger
    ensures var after := Deliver(ledger, sent)[tx.id];
            && after.tags == tx.tags + {q.tagDone}
            && after.notes == (if !Noted(tx, q) then Some(AddLine(tx.notes, Join(q.lines)))
                               else if !Noted(tx, p) then Some(AddLine(tx.notes, Join(p.lines)))
                               else ledger[tx.id].notes)
  {
    assert sent[..1] == [sent[0]] && sent[..1][..0] == [];
    DeliveredNet(ledger, sent, tx.id);
    assert Net(sent[..1], tx.id) == Combine(TransactionUpdate(None, None, None), sent[0].update);
  }

  /** The second update overwrites the first, field by field: the first payment stays exactly as described above. */
  lemma SecondUpdateOverwritesTheFirst(
    tx: Transaction, p: Item, q: Item, sent: seq<Sent>, ledger: map<int, Transaction>)
    requires BothSent(tx, p, q, sent) && tx.id in ledger
    ensures Carries(Deliver(ledger, sent)[tx.id], p) <==> FirstSurvives(tx, ledger[tx.id], p, q)
  {
    AfterBoth(tx, p, q, sent, ledger);
    NewNoteIsThere(tx, p);
    NewNoteIsThere(tx, q);
  }

  lemma NewNoteIsThere(tx: Transaction, p: Item)
    requires p.OrderPayment? && Join(p.lines) != ""
    ensures AddLine(tx.notes, Join(p.lines)) != ""
    ensures Contains(Lower(AddLine(tx.notes, Join(p.lines))), Lower(Join(p.lines)))
  {
    var before :| AddLine(tx.notes, Join(p.lines)) == before + Join(p.lines);
    EndsWithContains(before, Join(p.lines));
  }

  function AlwaysAccepts(): nat -> Option<string> {
    (k: nat) => None
  }

  /** The Allegro job that attaches both payments of one cached transaction, Firefly accepting every update. */
  function TwoPaymentJob(tx: Transaction, p: Item, q: Item, status: MatchStatus): Work
    requires p.OrderPayment? && q.OrderPayment?
  {
    Work(AllegroNaming(), [MatchResult(tx, [p, q], status)],
         [Decision(tx.id, p.externalShortId), Decision(tx.id, q.externalShortId)], AlwaysAccepts())
  }

  lemma BothAccepted(w: Work, first: Sent, second: Sent)
    requires |w.decisions| == 2 && w.answers(0).None? && w.answers(1).None?
    requires Prepare(w.naming, w.results, w.decisions[0]) == Ok(first)
    requires Prepare(w.naming, w.results, w.decisions[1]) == Ok(second)
    ensures Successes(Outcomes(w, 2)) == 2 && SentBy(w, 2) == [first, second]
  {
    var zero, one := OutcomeAt(w, 0), OutcomeAt(w, 1);
    assert Outcomes(w, 0) == [] && SentBy(w, 0) == [];
    assert Outcomes(w, 1) == [] + [zero] && SentBy(w, 1) == [] + [first];
    SuccessesOneMore([], zero);
    SuccessesOneMore([] + [zero], one);
  }

  /**
   The job always reports both payments as applied, but leaves the first one on the transaction exactly when it
   survives the second.
   */
  lemma BothReportedButTheFirstSurvivesIff(
    tx: Transaction, p: Item, q: Item, status: MatchStatus, ledger: map<int, Transaction>)
    requires p.OrderPayment? && q.OrderPayment? && Join(p.lines) != "" && Join(q.lines) != ""
    requires p.externalShortId != q.externalShortId && tx.id in ledger
    ensures var w := TwoPaymentJob(tx, p, q, status);
            && Successes(Outcomes(w, 2)) == 2
            && (Carries(Deliver(ledger, SentBy(w, 2))[tx.id], p) <==> FirstSurvives(tx, ledger[tx.id], p, q))
  {
    var w := TwoPaymentJob(tx, p, q, status);
    assert [p, q][0] == p && [p, q][1] == q;
    SelectionAttachesIff(w.naming, w.results, 0, p);
    SelectionAttachesIff(w.naming, w.results, 0, q);
    BothAccepted(w, Sent(tx.id, BuildUpdate(p, tx).value), Sent(tx.id, BuildUpdate(q, tx).value));
    SecondUpdateOverwritesTheFirst(tx, p, q, SentBy(w, 2), ledger);
  }

  lemma NotContained()
    ensures !Contains(Lower("b"), Lower("a"))
  {
    assert Lower("a") == "a" && Lower("b") == "b";
    forall i: nat ensures !OccursAt("b", "a", i) {
      if i == 0 {
        assert "b"[0..1] == "b";
        assert "b"[0] != "a"[0];
      }
    }
  }

  const LOST_PAYMENT: Item := LATE_PAYMENT.(lines := ["a"], externalShortId := "p")
  const KEPT_PAYMENT: Item := LATE_PAYMENT.(lines := ["b"], externalShortId := "q")

  lemma LostDoesNotSurvive()
    ensures Join(LOST_PAYMENT.lines) == "a" && Join(KEPT_PAYMENT.lines) == "b"
    ensures !FirstSurvives(LATE_TX, LATE_TX, LOST_PAYMENT, KEPT_PAYMENT)
  {
    NotContained();
  }

  /** It need not survive: both payments compare true, both are reported as applied, and the first one is gone. */
  lemma AppliedButLost()
    ensures Compare(LOST_PAYMENT, LATE_TX) && Compare(KEPT_PAYMENT, LATE_TX)
    ensures var w := TwoPaymentJob(LATE_TX, LOST_PAYMENT, KEPT_PAYMENT, NewMatch);
            && Successes(Outcomes(w, 2)) == 2
            && !Carries(Deliver(map[LATE_TX.id := LATE_TX], SentBy(w, 2))[LATE_TX.id], LOST_PAYMENT)
  {
    LatePaymentFits(LOST_PAYMENT);
    LatePaymentFits(KEPT_PAYMENT);
    LostDoesNotSurvive();
    BothReportedButTheFirstSurvivesIff(LATE_TX, LOST_PAYMENT, KEPT_PAYMENT, NewMatch, map[LATE_TX.id := LATE_TX]);
  }

  // ----- an automatic job, from ledger to ledger -----

  /** A job for the single matches among results of distinct transactions, as Firefly still has them. */
  ghost predicate FreshAutoJob(w: Work, selected: seq<MatchResult>, ledger: map<int, Transaction>) {
    && DistinctBy(ResultId(), w.results) && DistinctBy(ResultId(), selected)
    && (forall m | m in selected ::
          m in w.results && |m.matches| == 1 && m.tx.id in ledger && ledger[m.tx.id] == m.tx)
    && w.decisions == DecideAll(w.naming, selected)
  }

  lemma SelectionIsDistinct(results: seq<MatchResult>, limit: Option<int>, selected: seq<MatchResult>)
    requires DistinctBy(ResultId(), results)
    requires selected == BlikSelection(results, limit) || selected == AllegroSelection(results, limit)
    ensures DistinctBy(ResultId(), selected)
  {
    FilterKeepsDistinct(ResultId(), IsSingle(), results);
    assert selected <= SingleMatches(results);
  }

  /** What the k-th decision of such a job sends: the update of its own match, if there is one and Firefly takes it. */
  function OwnUpdate(w: Work, m: MatchResult, k: nat): Option<Sent>
    requires |m.matches| == 1
  {
    var update := BuildUpdate(m.matches[0], m.tx);
    if update.Ok? && w.answers(k).None? then Some(Sent(m.tx.id, update.value)) else None
  }

  lemma AutoJobSendsItsMatches(w: Work, selected: seq<MatchResult>, ledger: map<int, Transaction>, k: nat)
    requires FreshAutoJob(w, selected, ledger) && k < |selected|
    ensures |selected[k].matches| == 1
    ensures var own := OwnUpdate(w, selected[k], k);
            SentBy(w, k + 1) == SentBy(w, k) + (if own.Some? then [own.value] else [])
  {
    var m := selected[k];
    assert m in selected && w.decisions[k] == Decide(w.naming, m);
    AutoDecisionsResolve(w.naming, w.results, m);
    SentOneMore(w, k);
  }

  const NO_CHANGE := TransactionUpdate(None, None, None)

  lemma NetOneMore(sent: seq<Sent>, s: Sent, id: int)
    ensures Net(sent + [s], id) == if s.transactionId == id then Combine(Net(sent, id), s.update) else Net(sent, id)
  {
    assert (sent + [s])[..|sent|] == sent;
  }

  /** What was sent for the first k of some decisions, each of which sends at most one update. */
  ghost predicate SendsInOrder(sent: nat -> seq<Sent>, own: seq<Option<Sent>>) {
    sent(0) == [] && forall k: nat | k < |own| :: sent(k + 1) == sent(k) + (if own[k].Some? then [own[k].value] else [])
  }

  /** Without an update for it, or with one, a transaction ends up with nothing, or with that one. */
  lemma {:induction false} NetOfNone(sent: nat -> seq<Sent>, own: seq<Option<Sent>>, k: nat, id: int)
    requires SendsInOrder(sent, own) && k <= |own|
    requires forall j | 0 <= j < k && own[j].Some? :: own[j].value.transactionId != id
    ensures Net(sent(k), id) == NO_CHANGE
  {
    if k == 0 {
    } else {
      NetOfNone(sent, own, k - 1, id);
      assert sent(k - 1 + 1) == sent(k - 1) + (if own[k - 1].Some? then [own[k - 1].value] else []);
      if own[k - 1].Some? {
        NetOneMore(sent(k - 1), own[k - 1].value, id);
      } else {
        assert sent(k - 1) + [] == sent(k - 1);
      }
    }
  }

  lemma {:induction false} NetOfOne(sent: nat -> seq<Sent>, own: seq<Option<Sent>>, k: nat, j: nat)
    requires SendsInOrder(sent, own) && j < k <= |own| && own[j].Some?
    requires forall i | 0 <= i < k && i != j && own[i].Some? :: own[i].value.transactionId != own[j].value.transactionId
    ensures Net(sent(k), own[j].value.transactionId) == Combine(NO_CHANGE, own[j].value.update)
  {
    var id := own[j].value.transactionId;
    assert sent(k - 1 + 1) == sent(k - 1) + (if own[k - 1].Some? then [own[k - 1].value] else []);
    if j == k - 1 {
      NetOfNone(sent, own, k - 1, id);
      NetOneMore(sent(k - 1), own[j].value, id);
    } else {
      NetOfOne(sent, own, k - 1, j);
      if own[k - 1].Some? {
        NetOneMore(sent(k - 1), own[k - 1].value, id);
      } else {
        assert sent(k - 1) + [] == sent(k - 1);
      }
    }
  }

  function SentSoFar(w: Work): nat -> seq<Sent> {
    (k: nat) => if k <= |w.decisions| then SentBy(w, k) else []
  }

  function OwnUpdates(w: Work, selected: seq<MatchResult>): (own: seq<Option<Sent>>)
    requires forall m | m in selected :: |m.matches| == 1
    ensures |own| == |selected|
    ensures forall k: nat | k < |selected| :: |selected[k].matches| == 1 && own[k] == OwnUpdate(w, selected[k], k)
  {
    seq(|selected|, k requires 0 <= k < |selected| && selected[k] in selected => OwnUpdate(w, selected[k], k))
  }

  lemma AutoJobSendsInOrder(w: Work, selected: seq<MatchResult>, ledger: map<int, Transaction>)
    requires FreshAutoJob(w, selected, ledger)
    ensures SendsInOrder(SentSoFar(w), OwnUpdates(w, selected))
  {
    forall k: nat | k < |selected|
      ensures var own := OwnUpdates(w, selected);
              SentBy(w, k + 1) == SentBy(w, k) + (if own[k].Some? then [own[k].value] else [])
    {
      AutoJobSendsItsMatches(w, selected, ledger, k);
    }
  }

  /** What a job does in all to the transaction of the j-th decision. */
  lemma NetOfAutoJob(w: Work, selected: seq<MatchResult>, ledger: map<int, Transaction>, j: nat)
    requires FreshAutoJob(w, selected, ledger) && j < |selected|
    ensures |selected[j].matches| == 1
    ensures var own := OwnUpdate(w, selected[j], j);
            Net(SentBy(w, |selected|), selected[j].tx.id) ==
            if own.Some? then Combine(NO_CHANGE, own.value.update) else NO_CHANGE
  {
    var own := OwnUpdates(w, selected);
    AutoJobSendsInOrder(w, selected, ledger);
    forall i | 0 <= i < |selected| && i != j ensures selected[i].tx.id != selected[j].tx.id {
      assert i < j ==> ResultId()(selected[i]) != ResultId()(selected[j]);
      assert j < i ==> ResultId()(selected[j]) != ResultId()(selected[i]);
    }
    if own[j].Some? {
      NetOfOne(SentSoFar(w), own, |selected|, j);
    } else {
      NetOfNone(SentSoFar(w), own, |selected|, selected[j].tx.id);
    }
  }

  lemma AutoJobAttachesOne(w: Work, selected: seq<MatchResult>, ledger: map<int, Transaction>, j: nat)
    requires FreshAutoJob(w, selected, ledger) && j < |selected|
    ensures |selected[j].matches| == 1 && selected[j].tx.id in ledger
    ensures Deliver(ledger, SentBy(w, |selected|))[selected[j].tx.id] ==
            if w.answers(j).None? then Attach(selected[j].tx, selected[j].matches[0]) else selected[j].tx
  {
    assert selected[j] in selected;
    DeliveredNet(ledger, SentBy(w, |selected|), selected[j].tx.id);
    NetOfAutoJob(w, selected, ledger, j);
  }

  /**
   An automatic job attaches to every selected transaction exactly its own match: unless Firefly refuses the update
   or a payment has no details, the transaction ends with the match's text and tag. Nothing else changes.
   */
  lemma AutoJobAttachesEveryMatch(w: Work, selected: seq<MatchResult>, ledger: map<int, Transaction>)
    requires FreshAutoJob(w, selected, ledger)
    ensures var after := Deliver(ledger, SentBy(w, |selected|));
            && (forall j: nat | j < |selected| ::
                  && |selected[j].matches| == 1 && selected[j].tx.id in ledger
                  && after[selected[j].tx.id] ==
                     if w.answers(j).None? then Attach(selected[j].tx, selected[j].matches[0]) else selected[j].tx)
            && (forall id | id in ledger && forall m | m in selected :: m.tx.id != id :: after[id] == ledger[id])
  {
    var sent := SentBy(w, |selected|);
    forall j: nat | j < |selected|
      ensures |selected[j].matches| == 1 && selected[j].tx.id in ledger
      ensures Deliver(ledger, sent)[selected[j].tx.id] ==
              if w.answers(j).None? then Attach(selected[j].tx, selected[j].matches[0]) else selected[j].tx
    {
      AutoJobAttachesOne(w, selected, ledger, j);
    }
    forall id | id in ledger && forall m | m in selected :: m.tx.id != id
      ensures Deliver(ledger, sent)[id] == ledger[id]
    {
      DeliveredNet(ledger, sent, id);
      AutoJobSendsInOrder(w, selected, ledger);
      NetOfNone(SentSoFar(w), OwnUpdates(w, selected), |selected|, id);
    }
  }

  /**
   The job that is started right after matching a ledger with distinct ids is such a job, and every match it was
   made from is the only candidate that belongs to its transaction.
   */
  lemma FreshMatchesMakeAFreshJob(
    naming: Naming, answers: nat -> Option<string>, ledger: seq<Transaction>, candidates: seq<Item>,
    filterText: string, tagDone: string, limit: Option<int>, selected: seq<MatchResult>,
    remote: map<int, Transaction>)
    requires DistinctBy(TransactionId(), ledger) && candidates != []
    requires forall tx | tx in ledger :: tx.id in remote && remote[tx.id] == tx
    requires var results := ResultsFor(Fetched(ledger, candidates, filterText, FUTURE_DAYS), candidates, tagDone);
             selected == BlikSelection(results, limit) || selected == AllegroSelection(results, limit)
    ensures var results := ResultsFor(Fetched(ledger, candidates, filterText, FUTURE_DAYS), candidates, tagDone);
            && (forall m | m in selected :: |m.matches| == 1 && m.tx in ledger && BelongTogether(m.matches[0], m.tx)
                  && forall item | item in candidates && BelongTogether(item, m.tx) :: item == m.matches[0])
            && FreshAutoJob(Work(naming, results, DecideAll(naming, selected), answers), selected, remote)
  {
    var txs := Fetched(ledger, candidates, filterText, FUTURE_DAYS);
    var results := ResultsFor(txs, candidates, tagDone);
    FetchedIsDistinct(ledger, candidates, filterText, tagDone);
    SelectionIsDistinct(results, limit, selected);
    SelectionsAreSingle(results, limit, selected);
    forall m | m in selected
      ensures |m.matches| == 1 && m.tx in ledger && BelongTogether(m.matches[0], m.tx)
      ensures forall item | item in candidates && BelongTogether(item, m.tx) :: item == m.matches[0]
    {
      SingleMatchIsTheOnlyOne(txs, candidates, tagDone, m);
    }
  }

  lemma SingleMatchIsTheOnlyOne(txs: seq<Transaction>, candidates: seq<Item>, tagDone: string, m: MatchResult)
    requires m in ResultsFor(txs, candidates, tagDone) && |m.matches| == 1
    ensures m.tx in txs && BelongTogether(m.matches[0], m.tx)
    ensures forall item | item in candidates && BelongTogether(item, m.tx) :: item == m.matches[0]
  {
    ResultsComeFrom(txs, candidates, tagDone, m);
    assert m.matches[0] in m.matches;
    forall item | item in candidates && BelongTogether(item, m.tx) ensures item == m.matches[0] {
      assert item in Filter(FitsTransaction(m.tx), candidates);
    }
  }
}
