/**
Scoring how similar a known transaction is to a query and ranking the best ones
(src/services/categorization/similarity_engine.py, with the buckets of
src/services/categorization/amount_bucketizer.py).

Scores are real numbers instead of floats. The text ratio of `difflib` is an
arbitrary function into [0, 1].
*/
module Similarity {
  import opened Wrappers
  import opened Text
  import opened Sorting
  import opened Numbers
  import opened Preprocessor
  import opened Ranking

  datatype Query = Query(
    transactionId: Option<string>,
    title: string,
    merchant: Option<string>,
    notes: Option<string>,
    amountBucket: string,
    sourceType: string)

  /** A categorized transaction, as the snapshot provider presents it. */
  datatype Document = Document(
    transactionId: string,
    categoryId: string,
    categoryName: string,
    title: string,
    merchant: Option<string>,
    notes: Option<string>,
    amountBucket: string)

  datatype Field = TitleField | MerchantField | NotesField | AmountField

  datatype Match = Match(transactionId: string, categoryId: string, categoryName: string, score: real, matchedBy: Field)

  datatype Engine = Engine(nfkd: Decomposition, ratio: (string, string) -> real, minScore: real)

  /** The settings' threshold, and a ratio that is a ratio. */
  ghost predicate Proper(e: Engine) {
    && e.minScore == 0.35
    && forall a, b :: 0.0 <= e.ratio(a, b) <= 1.0
  }

  // ----- amount buckets -----

  const LABELS: seq<string> := ["0-10", "10-25", "25-50", "50-100", "100-250", "250-500", "500+"]
  const UPPER_BOUNDS: seq<real> := [10.0, 25.0, 50.0, 100.0, 250.0, 500.0]

  function FirstBound(amount: real, i: nat): nat
    requires i <= |UPPER_BOUNDS|
    decreases |UPPER_BOUNDS| - i
  {
    if i == |UPPER_BOUNDS| || amount <= UPPER_BOUNDS[i] then i else FirstBound(amount, i + 1)
  }

  /** The last bound is infinite, so the last label takes everything else. */
  function BucketForAmount(amount: real): string {
    LABELS[FirstBound(Abs(amount), 0)]
  }

  function IndexOf(labels: seq<string>, wanted: string): nat {
    if labels == [] || labels[0] == wanted then 0 else 1 + IndexOf(labels[1..], wanted)
  }

  function BucketIndex(bucket: string): int {
    var i := IndexOf(LABELS, bucket);
    if i < |LABELS| then i else |LABELS| - 1
  }

  function AmountSimilarity(a: string, b: string): (r: real)
    ensures 0.0 <= r <= 1.0
  {
    if a == "" || b == "" then 0.0
    else
      var left, right := BucketIndex(a), BucketIndex(b);
      var distance := if left < right then right - left else left - right;
      if distance == 0 then 1.0 else if distance == 1 then 0.65 else if distance == 2 then 0.35 else 0.0
  }

  /** The label says between which bounds the amount lies, whatever its sign. */
  lemma BucketHoldsTheAmount(amount: real)
    ensures exists i | 0 <= i < |LABELS| ::
              && BucketForAmount(amount) == LABELS[i]
              && (i < |UPPER_BOUNDS| ==> -UPPER_BOUNDS[i] <= amount <= UPPER_BOUNDS[i])
              && (i > 0 ==> amount < -UPPER_BOUNDS[i - 1] || UPPER_BOUNDS[i - 1] < amount)
  {
    FirstBoundIsFirst(Abs(amount), 0);
  }

  lemma {:induction false} FirstBoundIsFirst(amount: real, i: nat)
    requires i <= |UPPER_BOUNDS| && (i > 0 ==> UPPER_BOUNDS[i - 1] < amount)
    ensures var k := FirstBound(amount, i);
            && k <= |UPPER_BOUNDS| && (k < |UPPER_BOUNDS| ==> amount <= UPPER_BOUNDS[k])
            && (k > 0 ==> UPPER_BOUNDS[k - 1] < amount)
    decreases |UPPER_BOUNDS| - i
  {
    if i < |UPPER_BOUNDS| && amount > UPPER_BOUNDS[i] {
      FirstBoundIsFirst(amount, i + 1);
    }
  }

  lemma LabelsHaveTheirIndex(i: nat)
    requires i < |LABELS|
    ensures LABELS[i] != "" && BucketIndex(LABELS[i]) == i
  {
    IndexOfDistinct(LABELS, i);
  }

  lemma {:induction false} IndexOfDistinct(labels: seq<string>, i: nat)
    requires i < |labels| && forall j | 0 <= j < i :: labels[j] != labels[i]
    ensures IndexOf(labels, labels[i]) == i
  {
    if i == 0 {
    } else {
      IndexOfDistinct(labels[1..], i - 1);
    }
  }

  /** Amounts count as similar by how many buckets lie between them. */
  lemma SimilarityFallsWithDistance(i: nat, j: nat)
    requires i < |LABELS| && j < |LABELS|
    ensures AmountSimilarity(LABELS[i], LABELS[j]) ==
            if i == j then 1.0 else if i == j + 1 || j == i + 1 then 0.65 else if i == j + 2 || j == i + 2 then 0.35
            else 0.0
  {
    LabelsHaveTheirIndex(i);
    LabelsHaveTheirIndex(j);
  }

  // ----- text -----

  function TextSimilarity(e: Engine, left: Option<string>, right: Option<string>): real {
    var l, r := Normalize(e.nfkd, left), Normalize(e.nfkd, right);
    if l == "" || r == "" then 0.0
    else
      var ratio := e.ratio(l, r);
      var lt, rt := Tokens(e.nfkd, left), Tokens(e.nfkd, right);
      if lt == {} || rt == {} then ratio
      else
        var overlap := Overlap(lt, rt);
        if overlap > ratio then overlap else ratio
  }

  /** Shared tokens over all tokens. */
  function Overlap(a: set<string>, b: set<string>): (r: real)
    requires a != {}
    ensures 0.0 <= r <= 1.0
  {
    assert a * b <= a + b && a <= a + b;
    SubsetIsSmaller(a * b, a + b);
    SubsetIsSmaller({}, a + b);
    assert a + b != {};
    FractionInUnit(|a * b|, |a + b|);
    |a * b| as real / |a + b| as real
  }

  lemma {:induction false} SubsetIsSmaller(a: set<string>, b: set<string>)
    requires a <= b
    ensures |a| <= |b|
  {
    if a == {} {
    } else {
      var x :| x in a;
      SubsetIsSmaller(a - {x}, b - {x});
    }
  }

  lemma FractionInUnit(n: nat, d: nat)
    requires n <= d && 0 < d
    ensures 0.0 <= n as real / d as real <= 1.0
  {
  }

  lemma TextSimilarityInUnit(e: Engine, left: Option<string>, right: Option<string>)
    requires Proper(e)
    ensures 0.0 <= TextSimilarity(e, left, right) <= 1.0
  {
  }

  /** Nothing is similar to an empty text; two texts are at least as similar as their ratio and their shared tokens. */
  lemma TextSimilarityIsTheBetter(e: Engine, left: Option<string>, right: Option<string>)
    requires Proper(e)
    ensures var l, r := Normalize(e.nfkd, left), Normalize(e.nfkd, right);
            var lt, rt := Tokens(e.nfkd, left), Tokens(e.nfkd, right);
            if l == "" || r == "" then TextSimilarity(e, left, right) == 0.0
            else
              && e.ratio(l, r) <= TextSimilarity(e, left, right)
              && lt != {} && rt != {} && |lt * rt| as real / |lt + rt| as real <= TextSimilarity(e, left, right)
              && (TextSimilarity(e, left, right) == e.ratio(l, r) ||
                  TextSimilarity(e, left, right) == |lt * rt| as real / |lt + rt| as real)
  {
    TokensAreProper(e.nfkd, left);
    TokensAreProper(e.nfkd, right);
  }

  /** A text is fully similar to itself, unless nothing is left of it. */
  lemma SameTextIsFullySimilar(e: Engine, text: Option<string>)
    requires Proper(e)
    ensures TextSimilarity(e, text, text) == if Normalize(e.nfkd, text) == "" then 0.0 else 1.0
  {
    var tokens := Tokens(e.nfkd, text);
    TextSimilarityIsTheBetter(e, text, text);
    TextSimilarityInUnit(e, text, text);
    assert tokens * tokens == tokens && tokens + tokens == tokens;
    assert tokens != {} ==> |tokens| as real / |tokens| as real == 1.0;
  }

  // ----- weights -----

  datatype Weights = Weights(title: real, merchant: real, notes: real, amount: real)

  function SelectWeights(e: Engine, q: Query): Weights {
    var source := Lower(Strip(q.sourceType));
    var merchantPresent := Normalize(e.nfkd, q.merchant) != "";
    var notesPresent := Normalize(e.nfkd, q.notes) != "";
    if source == "blik" && merchantPresent then Weights(0.25, 0.50, 0.15, 0.10)
    else if source == "allegro" && notesPresent then Weights(0.20, 0.10, 0.55, 0.15)
    else if merchantPresent then Weights(0.35, 0.40, 0.15, 0.10)
    else if notesPresent then Weights(0.45, 0.00, 0.40, 0.15)
    else Weights(0.75, 0.00, 0.10, 0.15)
  }

  /** Every weight table is a weighted average: no weight is negative and they sum to one. */
  lemma WeightsAreAnAverage(e: Engine, q: Query)
    ensures var w := SelectWeights(e, q);
            && w.title >= 0.0 && w.merchant >= 0.0 && w.notes >= 0.0 && w.amount >= 0.0
            && w.title + w.merchant + w.notes + w.amount == 1.0
  {
  }

  /** Which field weighs most: the merchant of a Blik payment, the notes of an Allegro order, a title that is alone. */
  lemma TheTellingFieldWeighsMost(e: Engine, q: Query)
    ensures var w, source := SelectWeights(e, q), Lower(Strip(q.sourceType));
            var merchant, notes := Normalize(e.nfkd, q.merchant) != "", Normalize(e.nfkd, q.notes) != "";
            && (source == "blik" && merchant ==> w.merchant > w.title && w.merchant > w.notes && w.merchant > w.amount)
            && (source == "allegro" && notes ==> w.notes > w.title && w.notes > w.merchant && w.notes > w.amount)
            && (!merchant && source != "allegro" ==> w.merchant == 0.0)
            && (!merchant && !notes ==> w.title > w.merchant && w.title > w.notes && w.title > w.amount)
            && 0.0 < w.title && 0.0 < w.amount < 0.2
  {
  }

  /** Which single field can reach the threshold on its own; the amount never does. */
  lemma WhichFieldSuffices(e: Engine, q: Query)
    requires Proper(e)
    ensures var w, source := SelectWeights(e, q), Lower(Strip(q.sourceType));
            var merchant, notes := Normalize(e.nfkd, q.merchant) != "", Normalize(e.nfkd, q.notes) != "";
            var blik, allegro := source == "blik" && merchant, source == "allegro" && notes;
            && (w.title >= e.minScore <==> !blik && !allegro)
            && (w.merchant >= e.minScore <==> merchant && !allegro)
            && (w.notes >= e.minScore <==> notes && (allegro || !merchant))
            && w.amount < e.minScore
  {
  }

  datatype Contributions = Contributions(title: real, merchant: real, notes: real, amount: real)

  function Contribute(e: Engine, q: Query, d: Document): Contributions {
    Weigh(SelectWeights(e, q),
          TextSimilarity(e, Some(q.title), Some(d.title)),
          TextSimilarity(e, q.merchant, d.merchant),
          TextSimilarity(e, q.notes, d.notes),
          AmountSimilarity(q.amountBucket, d.amountBucket))
  }

  function Of(c: Contributions, f: Field): real {
    match f
    case TitleField => c.title
    case MerchantField => c.merchant
    case NotesField => c.notes
    case AmountField => c.amount
  }

  function Priority(f: Field): int {
    match f case MerchantField => 3 case NotesField => 2 case TitleField => 1 case AmountField => 0
  }

  /** Whether `f` beats `g` as the explanation of a match: by contribution, then by priority. */
  predicate Explains(c: Contributions, f: Field, g: Field) {
    Of(c, f) > Of(c, g) || (Of(c, f) == Of(c, g) && Priority(f) > Priority(g))
  }

  /** `max` over the contributions in their listed order. */
  function MatchedBy(c: Contributions): (f: Field)
    ensures forall g | g != f :: Explains(c, f, g)
  {
    var f1 := if Explains(c, MerchantField, TitleField) then MerchantField else TitleField;
    var f2 := if Explains(c, NotesField, f1) then NotesField else f1;
    if Explains(c, AmountField, f2) then AmountField else f2
  }

  /** The field that contributes most; of several, the merchant before the notes before the title before the amount. */
  lemma MatchedByIff(c: Contributions)
    ensures MatchedBy(c) == MerchantField <==>
            c.merchant >= c.notes && c.merchant >= c.title && c.merchant >= c.amount
    ensures MatchedBy(c) == NotesField <==> c.notes > c.merchant && c.notes >= c.title && c.notes >= c.amount
    ensures MatchedBy(c) == TitleField <==> c.title > c.merchant && c.title > c.notes && c.title >= c.amount
    ensures MatchedBy(c) == AmountField <==> c.amount > c.merchant && c.amount > c.notes && c.amount > c.title
  {
  }

  function Score(c: Contributions): real {
    c.title + c.merchant + c.notes + c.amount
  }

  /** The weighted score of four similarities. */
  function Weigh(w: Weights, title: real, merchant: real, notes: real, amount: real): Contributions {
    Contributions(Part(w.title, title), Part(w.merchant, merchant), Part(w.notes, notes), Part(w.amount, amount))
  }

  function Part(weight: real, similarity: real): (r: real)
    ensures 0.0 <= weight && 0.0 <= similarity <= 1.0 ==> 0.0 <= r <= weight
  {
    weight * similarity
  }

  lemma AverageInUnit(w: Weights, title: real, merchant: real, notes: real, amount: real)
    requires w.title >= 0.0 && w.merchant >= 0.0 && w.notes >= 0.0 && w.amount >= 0.0
    requires w.title + w.merchant + w.notes + w.amount == 1.0
    requires 0.0 <= title <= 1.0 && 0.0 <= merchant <= 1.0 && 0.0 <= notes <= 1.0 && 0.0 <= amount <= 1.0
    ensures 0.0 <= Score(Weigh(w, title, merchant, notes, amount)) <= 1.0
  {
    var c := Weigh(w, title, merchant, notes, amount);
    assert 0.0 <= c.title <= w.title;
    assert 0.0 <= c.merchant <= w.merchant;
    assert 0.0 <= c.notes <= w.notes;
    assert 0.0 <= c.amount <= w.amount;
  }

  /** A score is a weighted average of similarities, so it lies between zero and one. */
  lemma ScoreInUnit(e: Engine, q: Query, d: Document)
    requires Proper(e)
    ensures 0.0 <= Score(Contribute(e, q, d)) <= 1.0
  {
    WeightsAreAnAverage(e, q);
    TextSimilarityInUnit(e, Some(q.title), Some(d.title));
    TextSimilarityInUnit(e, q.merchant, d.merchant);
    TextSimilarityInUnit(e, q.notes, d.notes);
    AverageInUnit(SelectWeights(e, q), TextSimilarity(e, Some(q.title), Some(d.title)),
                  TextSimilarity(e, q.merchant, d.merchant), TextSimilarity(e, q.notes, d.notes),
                  AmountSimilarity(q.amountBucket, d.amountBucket));
  }

  /** The score in twentieths: how many of them each similarity is worth, by source and by what the query says. */
  lemma ScoreInTwentieths(e: Engine, q: Query, d: Document)
    ensures var source := Lower(Strip(q.sourceType));
            var merchant, notes := Normalize(e.nfkd, q.merchant) != "", Normalize(e.nfkd, q.notes) != "";
            var t, m := TextSimilarity(e, Some(q.title), Some(d.title)), TextSimilarity(e, q.merchant, d.merchant);
            var n, a := TextSimilarity(e, q.notes, d.notes), AmountSimilarity(q.amountBucket, d.amountBucket);
            20.0 * Score(Contribute(e, q, d)) ==
              if source == "blik" && merchant then 5.0 * t + 10.0 * m + 3.0 * n + 2.0 * a
              else if source == "allegro" && notes then 4.0 * t + 2.0 * m + 11.0 * n + 3.0 * a
              else if merchant then 7.0 * t + 8.0 * m + 3.0 * n + 2.0 * a
              else if notes then 9.0 * t + 8.0 * n + 3.0 * a
              else 15.0 * t + 2.0 * n + 3.0 * a
  {
  }

  // ----- finding similar transactions -----

  /** What a candidate contributes to the list of matches, if anything. */
  function Judge(e: Engine, q: Query, d: Document): Option<Match> {
    if q.transactionId == Some(d.transactionId) then None
    else
      var c := Contribute(e, q, d);
      if Score(c) < e.minScore then None
      else Some(Match(d.transactionId, d.categoryId, d.categoryName, Round4(Score(c)), MatchedBy(c)))
  }

  function JudgeFor(e: Engine, q: Query): Document -> Option<Match> {
    d => Judge(e, q, d)
  }

  function Kept(e: Engine, q: Query, ds: seq<Document>): seq<Match> {
    Collect(JudgeFor(e, q), ds)
  }

  function MatchRank(m: Match): Rank {
    Rank(m.score, m.categoryName, m.transactionId)
  }

  /** The sort key: best score first, then category name ignoring case, then transaction id. */
  predicate RanksBefore(a: Match, b: Match) {
    RankLe(MatchRank(a), MatchRank(b))
  }

  function FindSimilarSpec(e: Engine, q: Query, ds: seq<Document>, limit: int): seq<Match> {
    Take(Sort(RanksBefore, Kept(e, q, ds)), limit)
  }

  method FindSimilar(e: Engine, q: Query, candidates: seq<Document>, limit: int) returns (r: seq<Match>)
    ensures r == FindSimilarSpec(e, q, candidates, limit)
  {
    var matches: seq<Match> := [];
    for i := 0 to |candidates|
      invariant matches == Kept(e, q, candidates[..i])
    {
      var candidate := candidates[i];
      assert candidates[..i + 1][..i] == candidates[..i];
      if q.transactionId.Some? && candidate.transactionId == q.transactionId.value {
        continue;
      }
      var contributions := Contribute(e, q, candidate);
      var score, matchedBy := Score(contributions), MatchedBy(contributions);
      if score < e.minScore {
        continue;
      }
      matches := matches + [Match(candidate.transactionId, candidate.categoryId, candidate.categoryName,
                                  Round4(score), matchedBy)];
    }
    assert candidates[..|candidates|] == candidates;
    r := Take(Sort(RanksBefore, matches), limit);
  }

  lemma RankingIsAPreorder()
    ensures TotalPreorder(RanksBefore)
  {
    ByRankIsAPreorder(MatchRank, RanksBefore);
  }

  /** Two candidates with one id are one candidate. */
  ghost predicate IdsIdentify(ds: seq<Document>) {
    forall c, d | c in ds && d in ds && c.transactionId == d.transactionId :: c == d
  }

  lemma JudgedKeepsItsId(e: Engine, q: Query, d: Document)
    ensures Judge(e, q, d).Some? ==> Judge(e, q, d).value.transactionId == d.transactionId
  {
  }

  lemma IdentifiedDoNotTie(e: Engine, q: Query, ds: seq<Document>)
    requires IdsIdentify(ds)
    ensures NoTies(RanksBefore, Kept(e, q, ds))
  {
    forall x, y | x in Kept(e, q, ds) && y in Kept(e, q, ds) && RanksBefore(x, y) && RanksBefore(y, x) ensures x == y {
      TiesShareTheId(MatchRank(x), MatchRank(y));
      CollectedComesFrom(JudgeFor(e, q), ds, x);
      CollectedComesFrom(JudgeFor(e, q), ds, y);
      var c :| c in ds && JudgeFor(e, q)(c) == Some(x);
      var d :| d in ds && JudgeFor(e, q)(d) == Some(y);
      JudgedKeepsItsId(e, q, c);
      JudgedKeepsItsId(e, q, d);
    }
  }

  /** The list of similar transactions depends only on the set of candidates, not on their order. */
  lemma SimilarForgetsOrder(e: Engine, q: Query, a: seq<Document>, b: seq<Document>, limit: int)
    requires multiset(a) == multiset(b) && IdsIdentify(a)
    ensures FindSimilarSpec(e, q, a, limit) == FindSimilarSpec(e, q, b, limit)
  {
    RankingIsAPreorder();
    CollectForgetsOrder(JudgeFor(e, q), a, b);
    IdentifiedDoNotTie(e, q, a);
    SortForgetsOrder(RanksBefore, Kept(e, q, a), Kept(e, q, b));
  }

  /** A candidate that reaches the threshold but is not returned does not rank strictly above a returned one. */
  lemma DroppedDoNotOutrank(e: Engine, q: Query, ds: seq<Document>, limit: int, dropped: Document, returned: Match)
    requires dropped in ds && Judge(e, q, dropped).Some?
    requires Judge(e, q, dropped).value !in FindSimilarSpec(e, q, ds, limit)
    requires returned in FindSimilarSpec(e, q, ds, limit)
    ensures RanksBefore(returned, Judge(e, q, dropped).value)
  {
    RankingIsAPreorder();
    CollectMissesNone(JudgeFor(e, q), ds, dropped);
    TakeKeepsTheBest(RanksBefore, Kept(e, q, ds), limit, returned, Judge(e, q, dropped).value);
  }

  /** The returned matches come best score first; equal scores by category name ignoring case, then by id. */
  lemma BestMatchesComeFirst(e: Engine, q: Query, ds: seq<Document>, limit: int, i: nat, j: nat)
    requires i < j < |FindSimilarSpec(e, q, ds, limit)|
    ensures var r := FindSimilarSpec(e, q, ds, limit);
            && r[i].score >= r[j].score
            && (r[i].score == r[j].score ==> StringLe(Lower(r[i].categoryName), Lower(r[j].categoryName)))
            && (r[i].score == r[j].score && Lower(r[i].categoryName) == Lower(r[j].categoryName) ==>
                  StringLe(r[i].transactionId, r[j].transactionId))
  {
    RankingIsAPreorder();
    var sorted := Sort(RanksBefore, Kept(e, q, ds));
    SortIsSorted(RanksBefore, Kept(e, q, ds));
    assert RanksBefore(sorted[i], sorted[j]);
    RankedPair(MatchRank(sorted[i]), MatchRank(sorted[j]));
  }

  /**
  Who is missing from the result: the query's own transaction, a candidate below the threshold, or one that a full
  list cut off and that scores no higher than any match returned.
  */
  lemma MissingCandidatesScoreLess(e: Engine, q: Query, ds: seq<Document>, limit: int, d: Document)
    requires d in ds
    requires forall m | m in FindSimilarSpec(e, q, ds, limit) :: m.transactionId != d.transactionId
    ensures var r, score := FindSimilarSpec(e, q, ds, limit), Score(Contribute(e, q, d));
            || q.transactionId == Some(d.transactionId)
            || score < e.minScore
            || ((limit >= 0 ==> |r| == limit) && forall m | m in r :: m.score >= Round4(score))
  {
    if q.transactionId != Some(d.transactionId) && Score(Contribute(e, q, d)) >= e.minScore {
      RankingIsAPreorder();
      CollectMissesNone(JudgeFor(e, q), ds, d);
      TakeOfSorted(RanksBefore, Kept(e, q, ds), limit, Judge(e, q, d).value);
      forall m | m in FindSimilarSpec(e, q, ds, limit) ensures m.score >= Round4(Score(Contribute(e, q, d))) {
        DroppedDoNotOutrank(e, q, ds, limit, d, m);
        RankedPair(MatchRank(m), MatchRank(Judge(e, q, d).value));
      }
    }
  }

  /** Who is in it: other transactions of the candidates that reach the threshold, with their rounded scores. */
  lemma ReturnedCandidatesQualify(e: Engine, q: Query, ds: seq<Document>, limit: int, m: Match)
    requires m in FindSimilarSpec(e, q, ds, limit)
    ensures exists d | d in ds ::
              && q.transactionId != Some(d.transactionId)
              && Score(Contribute(e, q, d)) >= e.minScore
              && m == Match(d.transactionId, d.categoryId, d.categoryName, Round4(Score(Contribute(e, q, d))),
                            MatchedBy(Contribute(e, q, d)))
  {
    RankingIsAPreorder();
    TakeOfSorted(RanksBefore, Kept(e, q, ds), limit, m);
    CollectedComesFrom(JudgeFor(e, q), ds, m);
    var d :| d in ds && JudgeFor(e, q)(d) == Some(m);
  }

  /** A known transaction with the query's title, merchant, notes and bucket. */
  predicate Repeats(q: Query, d: Document) {
    d.title == q.title && d.merchant == q.merchant && d.notes == q.notes && d.amountBucket == q.amountBucket
  }

  /** Such a transaction is always found to be similar, as long as something is left of the title. */
  lemma RepetitionsAreKept(e: Engine, q: Query, d: Document)
    requires Proper(e) && Repeats(q, d) && q.amountBucket != "" && Normalize(e.nfkd, Some(q.title)) != ""
    requires q.transactionId != Some(d.transactionId)
    ensures Judge(e, q, d).Some?
    ensures Normalize(e.nfkd, q.merchant) != "" && Normalize(e.nfkd, q.notes) != "" ==>
              Judge(e, q, d).value.score == 1.0
  {
    SameTextIsFullySimilar(e, Some(q.title));
    SameTextIsFullySimilar(e, q.merchant);
    SameTextIsFullySimilar(e, q.notes);
    var w, c := SelectWeights(e, q), Contribute(e, q, d);
    assert c.title == w.title && c.amount == w.amount;
    assert c.merchant == if Normalize(e.nfkd, q.merchant) == "" then 0.0 else w.merchant;
    assert c.notes == if Normalize(e.nfkd, q.notes) == "" then 0.0 else w.notes;
    FourDigitsStay(10000);
  }

  /** A score as the engine hands it out: four digits, at least the threshold, at most one. */
  predicate ProperScore(s: real) {
    0.35 <= s <= 1.0 && Round4(s) == s
  }

  lemma JudgedScoreIsProper(e: Engine, q: Query, d: Document)
    requires Proper(e) && Judge(e, q, d).Some?
    ensures ProperScore(Judge(e, q, d).value.score)
  {
    var score := Score(Contribute(e, q, d));
    ScoreInUnit(e, q, d);
    RoundedScoreIsProper(score);
  }

  lemma RoundedScoreIsProper(score: real)
    requires 0.35 <= score <= 1.0
    ensures ProperScore(Round4(score))
  {
    FourDigitsStay(3500);
    FourDigitsStay(10000);
    RoundingIsMonotone(0.35, score);
    RoundingIsMonotone(score, 1.0);
    FourDigitsStay(RoundHalfEven(score * 10000.0));
  }

  /** Rounding never pushes a returned score below the threshold or above one. */
  lemma ReturnedScoresAreProper(e: Engine, q: Query, ds: seq<Document>, limit: int, m: Match)
    requires Proper(e) && m in FindSimilarSpec(e, q, ds, limit)
    ensures ProperScore(m.score)
    ensures exists d | d in ds :: JudgeFor(e, q)(d) == Some(m)
  {
    RankingIsAPreorder();
    SortIsSorted(RanksBefore, Kept(e, q, ds));
    assert m in multiset(Sort(RanksBefore, Kept(e, q, ds)));
    CollectedComesFrom(JudgeFor(e, q), ds, m);
    var d :| d in ds && JudgeFor(e, q)(d) == Some(m);
    JudgedScoreIsProper(e, q, d);
  }
}
