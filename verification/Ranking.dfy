/** The sort key of matches and of suggestions: best score first, then name ignoring case, then id. */
module Ranking {
  import opened Sorting
  import opened Text

  datatype Rank = Rank(score: real, name: string, id: string)

  predicate RankLe(a: Rank, b: Rank) {
    || a.score > b.score
    || (a.score == b.score &&
        if Lower(a.name) == Lower(b.name) then StringLe(a.id, b.id) else StringLe(Lower(a.name), Lower(b.name)))
  }

  lemma RankIsTransitive(a: Rank, b: Rank, c: Rank)
    requires RankLe(a, b) && RankLe(b, c)
    ensures RankLe(a, c)
  {
    var x, y, z := Lower(a.name), Lower(b.name), Lower(c.name);
    if a.score == b.score == c.score {
      if x == y == z {
        StringLeTransitive(a.id, b.id, c.id);
      } else if x != y && y != z {
        StringLeTransitive(x, y, z);
        if x == z {
          StringLeAntisymmetric(x, y);
        }
      }
    }
  }

  lemma RankIsTotal(a: Rank, b: Rank)
    ensures RankLe(a, b) || RankLe(b, a)
  {
    StringLeTotal(a.id, b.id);
    StringLeTotal(Lower(a.name), Lower(b.name));
  }

  /** Only entries of the same id can tie. */
  lemma TiesShareTheId(a: Rank, b: Rank)
    requires RankLe(a, b) && RankLe(b, a)
    ensures a.id == b.id
  {
    if Lower(a.name) != Lower(b.name) {
      StringLeAntisymmetric(Lower(a.name), Lower(b.name));
    }
    StringLeAntisymmetric(a.id, b.id);
  }

  /** What sorting by rank means for two entries: scores descend, then lower-cased names and ids ascend. */
  lemma RankedPair(a: Rank, b: Rank)
    requires RankLe(a, b)
    ensures a.score >= b.score
    ensures a.score == b.score ==> StringLe(Lower(a.name), Lower(b.name))
    ensures a.score == b.score && Lower(a.name) == Lower(b.name) ==> StringLe(a.id, b.id)
  {
    StringLeTotal(Lower(a.name), Lower(b.name));
  }

  /** Sorting by a key that is a rank sorts by a total preorder. */
  lemma ByRankIsAPreorder<T(!new)>(rank: T -> Rank, le: (T, T) -> bool)
    requires forall x, y :: le(x, y) == RankLe(rank(x), rank(y))
    ensures TotalPreorder(le)
  {
    forall x: T, y: T ensures le(x, y) || le(y, x) {
      RankIsTotal(rank(x), rank(y));
    }
    forall x: T, y: T, z: T | le(x, y) && le(y, z) ensures le(x, z) {
      RankIsTransitive(rank(x), rank(y), rank(z));
    }
  }
}
