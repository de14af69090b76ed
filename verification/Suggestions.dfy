/**
Turning similar transactions into category suggestions
(src/services/categorization/service.py): the matches of each category are
combined as independent evidence, then the categories are ranked.
*/
module Suggestions {
  import opened Wrappers
  import opened Sorting
  import opened Numbers
  import opened Preprocessor
  import opened Ranking
  import opened Similarity
  import opened Text

  const SIMILAR_LIMIT := 20

  /** What a caller asks about; the amount is bucketed on the way in. */
  datatype CategorizationQuery = CategorizationQuery(
    transactionId: Option<string>,
    title: string,
    merchant: Option<string>,
    notes: Option<string>,
    amount: real,
    sourceType: string)

  datatype Suggestion = Suggestion(categoryId: string, categoryName: string, score: real, reason: string)

  datatype Aggregate = Aggregate(categoryName: string, score: real, bestMatch: Match)

  function ReasonFromMatch(m: Match): string {
    match m.matchedBy
    case MerchantField => "similar merchant in previous transactions"
    case NotesField => "similar notes in previous transactions"
    case TitleField => "similar title pattern in previous transactions"
    case AmountField => "similar previous transactions"
  }

  // ----- the specification -----

  function Belongs(c: string): Match -> Option<Match> {
    (m: Match) => if m.categoryId == c then Some(m) else None
  }

  /** The matches of one category, in order. */
  function OfCategory(ms: seq<Match>, c: string): seq<Match> {
    Collect(Belongs(c), ms)
  }

  /** The categories that occur, each once, in order of first appearance. */
  function Categories(ms: seq<Match>): seq<string> {
    if ms == [] then []
    else
      var before, c := Categories(ms[..|ms| - 1]), ms[|ms| - 1].categoryId;
      if c in before then before else before + [c]
  }

  /** The chance that every match misses: the product of 1 - s over the scores s. */
  function Miss(ms: seq<Match>): real {
    if ms == [] then 1.0 else Times(Miss(ms[..|ms| - 1]), 1.0 - ms[|ms| - 1].score)
  }

  function Times(x: real, y: real): (r: real)
    ensures 0.0 <= x && 0.0 <= y <= 1.0 ==> 0.0 <= r <= x
    ensures 0.0 <= x <= 1.0 && 0.0 <= y ==> 0.0 <= r <= y
  {
    assert x * y == Part(x, y) == Part(y, x);
    x * y
  }

  /** The first match that no other one beats. */
  function Best(ms: seq<Match>): Match
    requires ms != []
  {
    var last := ms[|ms| - 1];
    if |ms| == 1 then last
    else
      var best := Best(ms[..|ms| - 1]);
      if last.score > best.score then last else best
  }

  function AggregateOf(ms: seq<Match>): Aggregate
    requires ms != []
  {
    Aggregate(ms[0].categoryName, 1.0 - Miss(ms), Best(ms))
  }

  function ToSuggestion(c: string, data: Aggregate): Suggestion {
    Suggestion(c, data.categoryName, Round4(data.score), ReasonFromMatch(data.bestMatch))
  }

  lemma {:induction false} CategoryOccursIff(ms: seq<Match>, c: string)
    ensures c in Categories(ms) <==> exists m | m in ms :: m.categoryId == c
    ensures c in Categories(ms) <==> OfCategory(ms, c) != []
  {
    if ms == [] {
    } else {
      var init, last := ms[..|ms| - 1], ms[|ms| - 1];
      CategoryOccursIff(init, c);
      assert ms == init + [last];
      assert last in ms && forall m | m in init :: m in ms;
    }
  }

  lemma {:induction false} CategoriesAreDistinct(ms: seq<Match>)
    ensures forall i, j | 0 <= i < j < |Categories(ms)| :: Categories(ms)[i] != Categories(ms)[j]
  {
    if ms == [] {
    } else {
      CategoriesAreDistinct(ms[..|ms| - 1]);
    }
  }

  lemma CategoriesAreThoseOfMatches(ms: seq<Match>)
    ensures forall c :: c in Categories(ms) <==> exists m | m in ms :: m.categoryId == c
    ensures forall c :: c in Categories(ms) <==> OfCategory(ms, c) != []
    ensures forall i, j | 0 <= i < j < |Categories(ms)| :: Categories(ms)[i] != Categories(ms)[j]
  {
    forall c
      ensures c in Categories(ms) <==> exists m | m in ms :: m.categoryId == c
      ensures c in Categories(ms) <==> OfCategory(ms, c) != []
    {
      CategoryOccursIff(ms, c);
    }
    CategoriesAreDistinct(ms);
  }

  /** One suggestion per category, before ranking. */
  function AllSuggestions(ms: seq<Match>): (r: seq<Suggestion>)
    ensures |r| == |Categories(ms)|
    ensures forall i | 0 <= i < |r| ::
              OfCategory(ms, Categories(ms)[i]) != [] &&
              r[i] == ToSuggestion(Categories(ms)[i], AggregateOf(OfCategory(ms, Categories(ms)[i])))
  {
    CategoriesAreThoseOfMatches(ms);
    var cs := Categories(ms);
    seq(|cs|, i requires 0 <= i < |cs| && OfCategory(ms, cs[i]) != [] =>
      ToSuggestion(cs[i], AggregateOf(OfCategory(ms, cs[i]))))
  }

  function SuggestionRank(s: Suggestion): Rank {
    Rank(s.score, s.categoryName, s.categoryId)
  }

  /** The sort key: best score first, then name ignoring case, then category id. */
  predicate Precedes(a: Suggestion, b: Suggestion) {
    RankLe(SuggestionRank(a), SuggestionRank(b))
  }

  function Ranked(ms: seq<Match>, limit: int): seq<Suggestion> {
    Take(Sort(Precedes, AllSuggestions(ms)), limit)
  }

  // ----- the code -----

  lemma OneMoreMatch(seen: seq<Match>, m: Match, c: string)
    ensures OfCategory(seen + [m], c) == OfCategory(seen, c) + (if m.categoryId == c then [m] else [])
  {
    assert (seen + [m])[..|seen|] == seen;
  }

  /** The score after one more match that scores `more`. */
  function Strengthen(score: real, more: real): real {
    1.0 - (1.0 - score) * (1.0 - more)
  }

  /** The entry of a category after one pass of the loop body. */
  function Absorb(was: Aggregate, m: Match): Aggregate {
    Aggregate(was.categoryName, Strengthen(was.score, m.score),
              if m.score > was.bestMatch.score then m else was.bestMatch)
  }

  function Fresh(m: Match): Aggregate {
    Aggregate(m.categoryName, 0.0, m)
  }

  lemma FirstInCategory(m: Match)
    ensures AggregateOf([m]) == Absorb(Fresh(m), m)
  {
    assert [m][..0] == [];
    assert Miss([m]) == Times(Miss([]), 1.0 - m.score);
  }

  lemma OneMoreInCategory(ms: seq<Match>, m: Match)
    requires ms != []
    ensures AggregateOf(ms + [m]) == Absorb(AggregateOf(ms), m)
  {
    assert (ms + [m])[..|ms|] == ms;
  }

  /** The dictionary holds exactly the aggregates of the matches seen so far. */
  ghost predicate Summarizes(aggregated: map<string, Aggregate>, seen: seq<Match>) {
    forall c :: SummarizesCategory(aggregated, seen, c)
  }

  ghost predicate SummarizesCategory(aggregated: map<string, Aggregate>, seen: seq<Match>, c: string) {
    && (c in aggregated <==> OfCategory(seen, c) != [])
    && (c in aggregated ==> aggregated[c] == AggregateOf(OfCategory(seen, c)))
  }

  lemma OwnCategoryOneMore(aggregated: map<string, Aggregate>, seen: seq<Match>, m: Match)
    requires Summarizes(aggregated, seen)
    ensures OfCategory(seen + [m], m.categoryId) != []
    ensures AggregateOf(OfCategory(seen + [m], m.categoryId)) ==
            Absorb(if m.categoryId in aggregated then aggregated[m.categoryId] else Fresh(m), m)
  {
    assert SummarizesCategory(aggregated, seen, m.categoryId);
    OneMoreMatch(seen, m, m.categoryId);
    var mine := OfCategory(seen, m.categoryId);
    if mine == [] {
      assert mine + [m] == [m];
      FirstInCategory(m);
    } else {
      OneMoreInCategory(mine, m);
    }
  }

  lemma OtherCategoryStays(seen: seq<Match>, m: Match, c: string)
    requires c != m.categoryId
    ensures OfCategory(seen + [m], c) == OfCategory(seen, c)
  {
    OneMoreMatch(seen, m, c);
    assert OfCategory(seen, c) + [] == OfCategory(seen, c);
  }

  function WithMatch(aggregated: map<string, Aggregate>, m: Match): map<string, Aggregate> {
    aggregated[m.categoryId := Absorb(if m.categoryId in aggregated then aggregated[m.categoryId] else Fresh(m), m)]
  }

  lemma SummarizesOneMore(aggregated: map<string, Aggregate>, seen: seq<Match>, m: Match)
    requires Summarizes(aggregated, seen)
    ensures Summarizes(WithMatch(aggregated, m), seen + [m])
  {
    var more, longer := WithMatch(aggregated, m), seen + [m];
    forall c ensures SummarizesCategory(more, longer, c) {
      assert SummarizesCategory(aggregated, seen, c);
      if c == m.categoryId {
        OwnCategoryOneMore(aggregated, seen, m);
      } else {
        OtherCategoryStays(seen, m, c);
      }
    }
  }

  lemma OneMoreCategory(seen: seq<Match>, m: Match)
    ensures Categories(seen + [m]) ==
            if m.categoryId in Categories(seen) then Categories(seen) else Categories(seen) + [m.categoryId]
    ensures m.categoryId in Categories(seen) <==> OfCategory(seen, m.categoryId) != []
  {
    assert (seen + [m])[..|seen|] == seen;
    CategoriesAreThoseOfMatches(seen);
  }

  /** The loop body of `_aggregate`. */
  method AddMatch(aggregated: map<string, Aggregate>, order: seq<string>, m: Match)
    returns (more: map<string, Aggregate>, moreOrder: seq<string>)
    ensures more == WithMatch(aggregated, m)
    ensures moreOrder == if m.categoryId in aggregated then order else order + [m.categoryId]
  {
    more, moreOrder := aggregated, order;
    if m.categoryId !in more {
      more := more[m.categoryId := Fresh(m)];
      moreOrder := moreOrder + [m.categoryId];
    }
    var bucket := more[m.categoryId];
    bucket := bucket.(score := Strengthen(bucket.score, m.score));
    if m.score > bucket.bestMatch.score {
      bucket := bucket.(bestMatch := m);
    }
    more := more[m.categoryId := bucket];
  }

  /** The dictionary and its insertion order after the matches seen so far. */
  ghost predicate Tracks(aggregated: map<string, Aggregate>, order: seq<string>, seen: seq<Match>) {
    Summarizes(aggregated, seen) && order == Categories(seen)
  }

  lemma TracksOneMore(aggregated: map<string, Aggregate>, order: seq<string>, matches: seq<Match>, i: nat)
    requires i < |matches| && Tracks(aggregated, order, matches[..i])
    ensures Tracks(WithMatch(aggregated, matches[i]),
                   if matches[i].categoryId in aggregated then order else order + [matches[i].categoryId],
                   matches[..i + 1])
  {
    var m := matches[i];
    OneMoreCategory(matches[..i], m);
    assert SummarizesCategory(aggregated, matches[..i], m.categoryId);
    SummarizesOneMore(aggregated, matches[..i], m);
    assert matches[..i + 1] == matches[..i] + [m];
  }

  /** `_aggregate`: one pass over the matches, then a sort and a slice. */
  method AggregateMatches(matches: seq<Match>, limit: int) returns (r: seq<Suggestion>)
    ensures r == Ranked(matches, limit)
  {
    if matches == [] {
      return [];
    }
    var aggregated: map<string, Aggregate> := map[];
    var order: seq<string> := [];
    for i := 0 to |matches|
      invariant Tracks(aggregated, order, matches[..i])
    {
      TracksOneMore(aggregated, order, matches, i);
      aggregated, order := AddMatch(aggregated, order, matches[i]);
    }
    assert matches[..|matches|] == matches;
    r := Take(Sort(Precedes, Listed(aggregated, order, matches)), limit);
  }

  lemma SummaryHasEveryCategory(aggregated: map<string, Aggregate>, seen: seq<Match>, c: string)
    requires Summarizes(aggregated, seen) && c in Categories(seen)
    ensures c in aggregated && OfCategory(seen, c) != [] && aggregated[c] == AggregateOf(OfCategory(seen, c))
  {
    CategoriesAreThoseOfMatches(seen);
    assert SummarizesCategory(aggregated, seen, c);
  }

  function Listed(aggregated: map<string, Aggregate>, order: seq<string>, ghost seen: seq<Match>): (r: seq<Suggestion>)
    requires Summarizes(aggregated, seen) && order == Categories(seen)
    ensures r == AllSuggestions(seen)
  {
    assert forall i | 0 <= i < |order| :: order[i] in aggregated by {
      forall i | 0 <= i < |order| ensures order[i] in aggregated {
        SummaryHasEveryCategory(aggregated, seen, order[i]);
      }
    }
    var r := seq(|order|, i requires 0 <= i < |order| && order[i] in aggregated =>
      ToSuggestion(order[i], aggregated[order[i]]));
    assert r == AllSuggestions(seen) by {
      forall i | 0 <= i < |order| ensures r[i] == AllSuggestions(seen)[i] {
        SummaryHasEveryCategory(aggregated, seen, order[i]);
      }
    }
    r
  }

  function QueryFor(t: CategorizationQuery): Query {
    Query(t.transactionId, t.title, t.merchant, t.notes, BucketForAmount(t.amount), t.sourceType)
  }

  function Suggest(e: Engine, q: Query, ds: seq<Document>, limit: int): seq<Suggestion> {
    Ranked(FindSimilarSpec(e, q, ds, SIMILAR_LIMIT), limit)
  }

  method SuggestForTransaction(e: Engine, t: CategorizationQuery, candidates: seq<Document>, limit: int)
    returns (r: seq<Suggestion>)
    ensures r == Suggest(e, QueryFor(t), candidates, limit)
  {
    var matches := FindSimilar(e, QueryFor(t), candidates, SIMILAR_LIMIT);
    r := AggregateMatches(matches, limit);
  }

  // ----- order does not matter -----

  lemma TimesAssociates(x: real, y: real, z: real)
    ensures Times(Times(x, y), z) == Times(x, Times(y, z))
  {
    calc {
      Times(Times(x, y), z);
      x * y * z;
      x * (y * z);
      Times(x, Times(y, z));
    }
  }

  lemma {:induction false} MissSplits(a: seq<Match>, b: seq<Match>)
    ensures Miss(a + b) == Times(Miss(a), Miss(b))
    decreases |b|
  {
    if b == [] {
      assert a + b == a;
    } else {
      var init, last := b[..|b| - 1], b[|b| - 1];
      assert (a + b)[..|a + b| - 1] == a + init;
      MissSplits(a, init);
      TimesAssociates(Miss(a), Miss(init), 1.0 - last.score);
    }
  }

  lemma MissMovesToFront(before: seq<Match>, m: Match, after: seq<Match>)
    ensures Miss(before + ([m] + after)) == Times(Miss([m]), Miss(before + after))
  {
    MissSplits(before, [m] + after);
    MissSplits([m], after);
    MissSplits(before, after);
    TimesAssociates(Miss(before), Miss([m]), Miss(after));
    TimesAssociates(Miss([m]), Miss(before), Miss(after));
  }

  lemma MissOfTail(ms: seq<Match>)
    requires ms != []
    ensures Miss(ms) == Times(Miss([ms[0]]), Miss(ms[1..]))
  {
    assert ms == [ms[0]] + ms[1..];
    MissSplits([ms[0]], ms[1..]);
  }

  /** The product does not depend on the order of its factors. */
  lemma {:induction false} MissForgetsOrder(a: seq<Match>, b: seq<Match>)
    requires multiset(a) == multiset(b)
    ensures Miss(a) == Miss(b)
    decreases |a|
  {
    EmptyTogether(a, b);
    if a == [] {
    } else {
      var before, after := SplitAt(b, a[0]);
      MultisetOfTail(a);
      MissForgetsOrder(a[1..], before + after);
      MissOfTail(a);
      MissMovesToFront(before, a[0], after);
    }
  }

  /** The combined score of every category is the same for every order of the matches. */
  lemma AggregateScoreForgetsOrder(a: seq<Match>, b: seq<Match>, c: string)
    requires multiset(a) == multiset(b) && c in Categories(a)
    ensures c in Categories(b)
    ensures OfCategory(a, c) != [] && OfCategory(b, c) != []
    ensures AggregateOf(OfCategory(a, c)).score == AggregateOf(OfCategory(b, c)).score
  {
    CategoriesAreThoseOfMatches(a);
    CategoriesAreThoseOfMatches(b);
    CollectForgetsOrder(Belongs(c), a, b);
    EmptyTogether(OfCategory(a, c), OfCategory(b, c));
    MissForgetsOrder(OfCategory(a, c), OfCategory(b, c));
  }

  /** The final suggestions depend only on the set of candidates, not on their order. */
  lemma SuggestionsForgetCandidateOrder(e: Engine, q: Query, a: seq<Document>, b: seq<Document>, limit: int)
    requires multiset(a) == multiset(b) && IdsIdentify(a)
    ensures Suggest(e, q, a, limit) == Suggest(e, q, b, limit)
  {
    SimilarForgetsOrder(e, q, a, b, SIMILAR_LIMIT);
  }

  // ----- what a combined score means -----

  ghost predicate InUnit(ms: seq<Match>) {
    forall m | m in ms :: 0.0 <= m.score <= 1.0
  }

  lemma {:induction false} MissIsBelowEachFactor(ms: seq<Match>)
    requires InUnit(ms)
    ensures 0.0 <= Miss(ms) <= 1.0
    ensures forall m | m in ms :: Miss(ms) <= 1.0 - m.score
  {
    if ms == [] {
    } else {
      var init, last := ms[..|ms| - 1], ms[|ms| - 1];
      assert ms == init + [last];
      assert last in ms;
      MissIsBelowEachFactor(init);
    }
  }

  lemma {:induction false} BestIsTheFirstHighest(ms: seq<Match>) returns (k: nat)
    requires ms != []
    ensures k < |ms| && ms[k] == Best(ms)
    ensures forall i | 0 <= i < |ms| :: ms[i].score <= Best(ms).score
    ensures forall i | 0 <= i < k :: ms[i].score < Best(ms).score
  {
    if |ms| == 1 {
      k := 0;
    } else {
      var init, last := ms[..|ms| - 1], ms[|ms| - 1];
      k := BestIsTheFirstHighest(init);
      forall i | 0 <= i < |init| ensures ms[i].score <= Best(init).score {
        assert ms[i] == init[i];
      }
      if last.score > Best(init).score {
        k := |ms| - 1;
      } else {
        assert ms[k] == init[k];
      }
    }
  }

  /** Combining never lowers a score below that of any single match, and stays between zero and one. */
  lemma CombinedScoreDominates(ms: seq<Match>)
    requires ms != [] && InUnit(ms)
    ensures 0.0 <= AggregateOf(ms).score <= 1.0
    ensures forall m | m in ms :: m.score <= AggregateOf(ms).score
  {
    MissIsBelowEachFactor(ms);
  }

  /** One more match of a category never lowers its score. */
  lemma MoreEvidenceNeverHurts(a: seq<Match>, m: Match, b: seq<Match>)
    requires a + b != [] && InUnit(a + ([m] + b))
    ensures AggregateOf(a + b).score <= AggregateOf(a + ([m] + b)).score
  {
    forall x | x in a + b ensures x in a + ([m] + b) {
    }
    assert m in a + ([m] + b);
    MissIsBelowEachFactor(a + b);
    MissMovesToFront(a, m, b);
    assert [m][..0] == [];
    assert Miss([m]) == Times(Miss([]), 1.0 - m.score);
  }

  lemma CategoryScoresAreProper(e: Engine, q: Query, ds: seq<Document>, limit: int, c: string)
    requires Proper(e)
    ensures forall m | m in OfCategory(FindSimilarSpec(e, q, ds, limit), c) ::
              ProperScore(m.score) && m in FindSimilarSpec(e, q, ds, limit) && m.categoryId == c
  {
    var ms := FindSimilarSpec(e, q, ds, limit);
    forall m | m in OfCategory(ms, c) ensures ProperScore(m.score) && m in ms && m.categoryId == c {
      CollectedComesFrom(Belongs(c), ms, m);
      ReturnedScoresAreProper(e, q, ds, limit, m);
    }
  }

  lemma RankedComesFrom(ms: seq<Match>, limit: int, s: Suggestion)
    requires s in Ranked(ms, limit)
    ensures s.categoryId in Categories(ms)
    ensures OfCategory(ms, s.categoryId) != []
    ensures s == ToSuggestion(s.categoryId, AggregateOf(OfCategory(ms, s.categoryId)))
  {
    PrecedesIsAPreorder();
    SortIsSorted(Precedes, AllSuggestions(ms));
    assert s in multiset(Sort(Precedes, AllSuggestions(ms)));
  }

  /**
   Every suggestion the service returns scores between the engine's threshold and one, at least as much as
   every single match of its category even after rounding, and gives the reason of the first best match.
   */
  lemma SuggestionsAreSound(e: Engine, q: Query, ds: seq<Document>, limit: int, s: Suggestion)
    requires Proper(e) && s in Suggest(e, q, ds, limit)
    ensures 0.35 <= s.score <= 1.0
    ensures forall m | m in FindSimilarSpec(e, q, ds, 20) && m.categoryId == s.categoryId ::
              m.score <= s.score
    ensures exists m | m in FindSimilarSpec(e, q, ds, 20) && m.categoryId == s.categoryId ::
              s.reason == ReasonFromMatch(m)
  {
    var ms := FindSimilarSpec(e, q, ds, SIMILAR_LIMIT);
    RankedComesFrom(ms, limit, s);
    var mine := OfCategory(ms, s.categoryId);
    CategoryScoresAreProper(e, q, ds, SIMILAR_LIMIT, s.categoryId);
    CombinedScoreDominates(mine);
    FourDigitsStay(10000);
    RoundingIsMonotone(AggregateOf(mine).score, 1.0);
    forall m | m in mine ensures m.score <= s.score {
      RoundingIsMonotone(m.score, AggregateOf(mine).score);
    }
    forall m | m in ms && m.categoryId == s.categoryId ensures m in mine {
      CollectMissesNone(Belongs(s.categoryId), ms, m);
    }
    var k := BestIsTheFirstHighest(mine);
    assert mine[k] in mine;
    assert mine[0] in mine;
  }

  // ----- the ranking -----

  lemma PrecedesIsAPreorder()
    ensures TotalPreorder(Precedes)
  {
    ByRankIsAPreorder(SuggestionRank, Precedes);
  }

  /** Every category of the matches gets exactly one suggestion before truncation. */
  lemma EachCategoryOnce(ms: seq<Match>)
    ensures forall m | m in ms :: exists s | s in AllSuggestions(ms) :: s.categoryId == m.categoryId
    ensures forall s | s in AllSuggestions(ms) :: exists m | m in ms :: m.categoryId == s.categoryId
    ensures forall i, j | 0 <= i < j < |AllSuggestions(ms)| ::
              AllSuggestions(ms)[i].categoryId != AllSuggestions(ms)[j].categoryId
  {
    var all, cs := AllSuggestions(ms), Categories(ms);
    CategoriesAreThoseOfMatches(ms);
    forall m | m in ms ensures exists s | s in all :: s.categoryId == m.categoryId {
      assert m.categoryId in Categories(ms);
      var i :| 0 <= i < |cs| && cs[i] == m.categoryId;
      assert all[i] in all;
    }
    forall s | s in all ensures exists m | m in ms :: m.categoryId == s.categoryId {
      var i :| 0 <= i < |all| && all[i] == s;
      assert cs[i] in cs;
    }
  }

  /** No two suggestions tie, so the ranking does not depend on the order of the categories. */
  lemma NoSuggestionsTie(ms: seq<Match>)
    ensures NoTies(Precedes, AllSuggestions(ms))
  {
    var all := AllSuggestions(ms);
    EachCategoryOnce(ms);
    forall a, b | a in all && b in all && Precedes(a, b) && Precedes(b, a) ensures a == b {
      TiesShareTheId(SuggestionRank(a), SuggestionRank(b));
    }
  }

  /** The suggestions come best score first; equal scores by name ignoring case, then by id. */
  lemma BestSuggestionsComeFirst(ms: seq<Match>, limit: int, i: nat, j: nat)
    requires i < j < |Ranked(ms, limit)|
    ensures var r := Ranked(ms, limit);
            && r[i].score >= r[j].score
            && (r[i].score == r[j].score ==> StringLe(Lower(r[i].categoryName), Lower(r[j].categoryName)))
            && (r[i].score == r[j].score && Lower(r[i].categoryName) == Lower(r[j].categoryName) ==>
                  StringLe(r[i].categoryId, r[j].categoryId))
  {
    PrecedesIsAPreorder();
    var sorted := Sort(Precedes, AllSuggestions(ms));
    SortIsSorted(Precedes, AllSuggestions(ms));
    assert Precedes(sorted[i], sorted[j]);
    RankedPair(SuggestionRank(sorted[i]), SuggestionRank(sorted[j]));
  }

  lemma CategoryHasASuggestion(ms: seq<Match>, c: string) returns (s: Suggestion)
    requires exists m | m in ms :: m.categoryId == c
    ensures s in AllSuggestions(ms) && s.categoryId == c && s.score == Round4(1.0 - Miss(OfCategory(ms, c)))
  {
    CategoryOccursIff(ms, c);
    var i :| 0 <= i < |Categories(ms)| && Categories(ms)[i] == c;
    s := AllSuggestions(ms)[i];
  }

  lemma CutSuggestionScoresLess(ms: seq<Match>, limit: int, cut: Suggestion)
    requires cut in AllSuggestions(ms) && cut !in Ranked(ms, limit)
    ensures limit >= 0 ==> |Ranked(ms, limit)| == limit
    ensures forall s | s in Ranked(ms, limit) :: s.score >= cut.score
  {
    PrecedesIsAPreorder();
    TakeOfSorted(Precedes, AllSuggestions(ms), limit, cut);
    forall s | s in Ranked(ms, limit) ensures s.score >= cut.score {
      TakeKeepsTheBest(Precedes, AllSuggestions(ms), limit, s, cut);
      RankedPair(SuggestionRank(s), SuggestionRank(cut));
    }
  }

  /**
  Every category of the matches is suggested, unless a full list cut it off; then its combined score, one minus the
  product of its misses, is no higher than any that is returned.
  */
  lemma MissingCategoriesScoreLess(ms: seq<Match>, limit: int, c: string)
    requires exists m | m in ms :: m.categoryId == c
    requires forall s | s in Ranked(ms, limit) :: s.categoryId != c
    ensures limit >= 0 ==> |Ranked(ms, limit)| == limit
    ensures forall s | s in Ranked(ms, limit) :: s.score >= Round4(1.0 - Miss(OfCategory(ms, c)))
  {
    var cut := CategoryHasASuggestion(ms, c);
    CutSuggestionScoresLess(ms, limit, cut);
  }

  lemma MatchesOfTheCategory(ms: seq<Match>, c: string)
    ensures forall m | m in OfCategory(ms, c) :: m in ms && m.categoryId == c
  {
    forall m | m in OfCategory(ms, c) ensures m in ms && m.categoryId == c {
      CollectedComesFrom(Belongs(c), ms, m);
    }
  }

  /** What a suggestion says: the combined score of its category, and the name that its first match gives it. */
  lemma SuggestionsSayTheirCategory(ms: seq<Match>, limit: int, s: Suggestion)
    requires s in Ranked(ms, limit)
    ensures var mine := OfCategory(ms, s.categoryId);
            && mine != [] && (forall m | m in mine :: m in ms && m.categoryId == s.categoryId)
            && s.score == Round4(1.0 - Miss(mine)) && s.categoryName == mine[0].categoryName
  {
    RankedComesFrom(ms, limit, s);
    MatchesOfTheCategory(ms, s.categoryId);
  }

  /** The reason names the field by which the first of the best matches of the category was found. */
  lemma ReasonNamesTheBestMatch(ms: seq<Match>, limit: int, s: Suggestion) returns (k: nat)
    requires s in Ranked(ms, limit)
    ensures var mine := OfCategory(ms, s.categoryId);
            && k < |mine|
            && (forall i | 0 <= i < |mine| :: mine[i].score <= mine[k].score)
            && (forall i | 0 <= i < k :: mine[i].score < mine[k].score)
            && s.reason == if mine[k].matchedBy == MerchantField then "similar merchant in previous transactions"
                           else if mine[k].matchedBy == NotesField then "similar notes in previous transactions"
                           else if mine[k].matchedBy == TitleField then "similar title pattern in previous transactions"
                           else "similar previous transactions"
  {
    RankedComesFrom(ms, limit, s);
    k := BestIsTheFirstHighest(OfCategory(ms, s.categoryId));
  }

  /** The combined score of a category reaches every single match of it, even after rounding. */
  lemma CombinedScoreReaches(e: Engine, q: Query, ds: seq<Document>, m: Match)
    requires Proper(e) && m in FindSimilarSpec(e, q, ds, SIMILAR_LIMIT)
    ensures m.score <= Round4(1.0 - Miss(OfCategory(FindSimilarSpec(e, q, ds, SIMILAR_LIMIT), m.categoryId)))
  {
    var ms := FindSimilarSpec(e, q, ds, SIMILAR_LIMIT);
    var mine := OfCategory(ms, m.categoryId);
    CollectMissesNone(Belongs(m.categoryId), ms, m);
    CategoryScoresAreProper(e, q, ds, SIMILAR_LIMIT, m.categoryId);
    MissIsBelowEachFactor(mine);
    RoundingIsMonotone(m.score, 1.0 - Miss(mine));
  }

  /** A candidate that reaches the threshold is among the matches, or no match scores less. */
  lemma SomeMatchReaches(e: Engine, q: Query, ds: seq<Document>, d: Document) returns (m: Match)
    requires d in ds && Judge(e, q, d).Some?
    ensures m in FindSimilarSpec(e, q, ds, SIMILAR_LIMIT) && m.score >= Judge(e, q, d).value.score
  {
    m := Judge(e, q, d).value;
    var ms := FindSimilarSpec(e, q, ds, SIMILAR_LIMIT);
    if m !in ms {
      RankingIsAPreorder();
      CollectMissesNone(JudgeFor(e, q), ds, d);
      TakeOfSorted(RanksBefore, Kept(e, q, ds), SIMILAR_LIMIT, m);
      assert ms[0] in ms;
      DroppedDoNotOutrank(e, q, ds, SIMILAR_LIMIT, d, ms[0]);
      RankedPair(MatchRank(ms[0]), MatchRank(m));
      m := ms[0];
    }
  }

  lemma FirstSuggestionReaches(ms: seq<Match>, limit: int, c: string, score: real)
    requires limit > 0 && (exists m | m in ms :: m.categoryId == c) && score <= Round4(1.0 - Miss(OfCategory(ms, c)))
    ensures Ranked(ms, limit) != [] && Ranked(ms, limit)[0].score >= score
  {
    var r := Ranked(ms, limit);
    if s :| s in r && s.categoryId == c {
      SuggestionsSayTheirCategory(ms, limit, s);
      var j :| 0 <= j < |r| && r[j] == s;
      if j > 0 {
        BestSuggestionsComeFirst(ms, limit, 0, j);
      }
    } else {
      MissingCategoriesScoreLess(ms, limit, c);
      assert r[0] in r;
    }
  }

  /** If there is any match there is a suggestion, and the first one scores at least as much. */
  lemma MatchesAreSuggested(e: Engine, q: Query, ds: seq<Document>, limit: int, m: Match)
    requires Proper(e) && limit > 0 && m in FindSimilarSpec(e, q, ds, SIMILAR_LIMIT)
    ensures Suggest(e, q, ds, limit) != [] && m.score <= Suggest(e, q, ds, limit)[0].score
  {
    CombinedScoreReaches(e, q, ds, m);
    FirstSuggestionReaches(FindSimilarSpec(e, q, ds, SIMILAR_LIMIT), limit, m.categoryId, m.score);
  }

  lemma FirstScoreIsProper(e: Engine, q: Query, ds: seq<Document>, limit: int)
    requires Proper(e) && Suggest(e, q, ds, limit) != []
    ensures 0.35 <= Suggest(e, q, ds, limit)[0].score <= 1.0
  {
    var first := Suggest(e, q, ds, limit)[0];
    assert first in Suggest(e, q, ds, limit);
    SuggestionsAreSound(e, q, ds, limit, first);
  }

  lemma RepetitionIsKept(e: Engine, t: CategorizationQuery, d: Document)
    requires Proper(e) && t.transactionId != Some(d.transactionId)
    requires d.title == t.title && d.merchant == t.merchant && d.notes == t.notes
    requires d.amountBucket == BucketForAmount(t.amount) && Normalize(e.nfkd, Some(t.title)) != ""
    ensures Judge(e, QueryFor(t), d).Some?
    ensures Normalize(e.nfkd, t.merchant) != "" && Normalize(e.nfkd, t.notes) != "" ==>
              Judge(e, QueryFor(t), d).value.score == 1.0
  {
    LabelsHaveTheirIndex(FirstBound(Abs(t.amount), 0));
    RepetitionsAreKept(e, QueryFor(t), d);
  }

  /**
  Asking about a transaction that repeats a known one in title, merchant, notes and amount always brings a suggestion;
  its score is one when merchant and notes are present.
  */
  lemma RepetitionsAreSuggested(e: Engine, t: CategorizationQuery, ds: seq<Document>, limit: int, d: Document)
    requires Proper(e) && limit > 0 && d in ds && t.transactionId != Some(d.transactionId)
    requires d.title == t.title && d.merchant == t.merchant && d.notes == t.notes
    requires d.amountBucket == BucketForAmount(t.amount) && Normalize(e.nfkd, Some(t.title)) != ""
    ensures var r := Suggest(e, QueryFor(t), ds, limit);
            && r != [] && r[0].score >= 0.35
            && (Normalize(e.nfkd, t.merchant) != "" && Normalize(e.nfkd, t.notes) != "" ==> r[0].score == 1.0)
  {
    RepetitionIsKept(e, t, d);
    var m := SomeMatchReaches(e, QueryFor(t), ds, d);
    MatchesAreSuggested(e, QueryFor(t), ds, limit, m);
    FirstScoreIsProper(e, QueryFor(t), ds, limit);
  }

  /** What the limit cuts off ranks strictly behind everything returned. */
  lemma TheLimitCutsTheWorst(ms: seq<Match>, limit: int, kept: Suggestion, cut: Suggestion)
    requires kept in Ranked(ms, limit) && cut in AllSuggestions(ms) && cut !in Ranked(ms, limit)
    ensures Precedes(kept, cut) && !Precedes(cut, kept)
  {
    var all := AllSuggestions(ms);
    PrecedesIsAPreorder();
    NoSuggestionsTie(ms);
    TakeKeepsTheBest(Precedes, all, limit, kept, cut);
    SortIsSorted(Precedes, all);
    assert kept in multiset(Sort(Precedes, all));
  }
}
