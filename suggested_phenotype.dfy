/**
 * A scored phenotype suggestion: an immutable (id, name, score) triple whose equality
 * looks at the id only and whose ordering looks at the score only, highest score first.
 */
module SuggestedPhenotypes {
  import opened Wrappers

  /** Id and name may be null; the score is only ever compared. */
  datatype SuggestedPhenotype = SuggestedPhenotype(id: Option<string>, name: Option<string>, score: real)

  /** What `equals` may be handed: null, an object of another class, the receiver itself, or another suggestion. */
  datatype Argument = Null | Foreign | Itself | Phenotype(other: SuggestedPhenotype)

  /**
   * `compareTo`: 0 against null or an equal score; -1 when this score is higher, +1 when it
   * is lower, so that sorting by it puts the highest score first.
   */
  function CompareTo(p: SuggestedPhenotype, o: Option<SuggestedPhenotype>): (c: int)
    ensures -1 <= c <= 1
    ensures o.None? ==> c == 0
    ensures o.Some? ==> (c == -1 <==> p.score > o.value.score)
    ensures o.Some? ==> (c == 1 <==> p.score < o.value.score)
  {
    match o
    case None => 0
    case Some(q) => if p.score > q.score then -1 else if p.score < q.score then 1 else 0
  }

  /**
   * `equals`: true for the receiver itself; false for null and for objects of another class;
   * between two suggestions, true exactly when both ids are present and the same.
   */
  function Equals(p: SuggestedPhenotype, o: Argument): (eq: bool)
    ensures o.Null? || o.Foreign? ==> !eq
    ensures o.Itself? ==> eq
    ensures o.Phenotype? ==> (eq <==> p.id.Some? && o.other.id.Some? && p.id.value == o.other.id.value)
  {
    match o
    case Null => false
    case Foreign => false
    case Itself => true
    case Phenotype(q) => p.id.Some? && p.id == q.id
  }

  // ---------------------------------------------------------------------------
  // Equality

  /** Name and score play no part in equality. */
  lemma EqualsIgnoresNameAndScore(p: SuggestedPhenotype, q: SuggestedPhenotype, name: Option<string>, score: real)
    ensures Equals(p, Phenotype(q)) == Equals(p, Phenotype(SuggestedPhenotype(q.id, name, score)))
    ensures Equals(p, Phenotype(q)) == Equals(SuggestedPhenotype(p.id, name, score), Phenotype(q))
  {
  }

  /** Equality between suggestions is symmetric and transitive, and reflexive on the receiver itself. */
  lemma EqualsIsConsistent(p: SuggestedPhenotype, q: SuggestedPhenotype, r: SuggestedPhenotype)
    ensures Equals(p, Itself)
    ensures Equals(p, Phenotype(q)) <==> Equals(q, Phenotype(p))
    ensures Equals(p, Phenotype(q)) && Equals(q, Phenotype(r)) ==> Equals(p, Phenotype(r))
  {
  }

  /** A suggestion without id equals no other suggestion, in either direction, not even one without id. */
  lemma NullIdEqualsNoOther(p: SuggestedPhenotype, q: SuggestedPhenotype)
    requires p.id.None?
    ensures !Equals(p, Phenotype(q)) && !Equals(q, Phenotype(p))
  {
  }

  // ---------------------------------------------------------------------------
  // Ordering

  /** The comparison is antisymmetric: swapping the two suggestions flips the sign. */
  lemma CompareAntisymmetric(p: SuggestedPhenotype, q: SuggestedPhenotype)
    ensures CompareTo(p, Some(q)) == -CompareTo(q, Some(p))
  {
  }

  /** "Ranks no later than" (compareTo <= 0) is transitive. */
  lemma CompareTransitive(p: SuggestedPhenotype, q: SuggestedPhenotype, r: SuggestedPhenotype)
    requires CompareTo(p, Some(q)) <= 0 && CompareTo(q, Some(r)) <= 0
    ensures CompareTo(p, Some(r)) <= 0
  {
  }

  /** Only the scores matter: replacing ids and names changes nothing. */
  lemma CompareIgnoresIdAndName(p: SuggestedPhenotype, q: SuggestedPhenotype, id: Option<string>, name: Option<string>)
    ensures CompareTo(p, Some(q)) == CompareTo(SuggestedPhenotype(id, name, p.score), Some(q))
    ensures CompareTo(p, Some(q)) == CompareTo(p, Some(SuggestedPhenotype(id, name, q.score)))
  {
  }

  /** `s` is in the order compareTo defines: no suggestion ranks after one it compares below. */
  predicate Ranked(s: seq<SuggestedPhenotype>)
  {
    forall i, j :: 0 <= i < j < |s| ==> CompareTo(s[i], Some(s[j])) <= 0
  }

  /** Scores never increase along `s`. */
  predicate ScoresDescending(s: seq<SuggestedPhenotype>)
  {
    forall i :: 0 <= i < |s| - 1 ==> s[i].score >= s[i + 1].score
  }

  /** A sequence is in compareTo order exactly when its scores are in descending order. */
  lemma {:induction false} RankedIffDescending(s: seq<SuggestedPhenotype>)
    ensures Ranked(s) <==> ScoresDescending(s)
    decreases |s|
  {
    if |s| >= 2 {
      RankedIffDescending(s[1..]);
      assert Ranked(s) <==> Ranked(s[1..]) && (forall j :: 1 <= j < |s| ==> s[0].score >= s[j].score) by {
        if Ranked(s) {
          forall i, j | 0 <= i < j < |s| - 1 ensures CompareTo(s[1..][i], Some(s[1..][j])) <= 0 {
            assert s[1..][i] == s[i + 1] && s[1..][j] == s[j + 1];
          }
          forall j | 1 <= j < |s| ensures s[0].score >= s[j].score {
            assert CompareTo(s[0], Some(s[j])) <= 0;
          }
        }
      }
      if ScoresDescending(s) {
        assert ScoresDescending(s[1..]) by {
          forall i | 0 <= i < |s[1..]| - 1 ensures s[1..][i].score >= s[1..][i + 1].score {
            assert s[1..][i] == s[i + 1];
          }
        }
        forall j | 1 <= j < |s| ensures s[0].score >= s[j].score {
          DescendingHead(s, j);
        }
        forall i, j | 0 <= i < j < |s| ensures CompareTo(s[i], Some(s[j])) <= 0 {
          if i > 0 {
            assert s[i] == s[1..][i - 1] && s[j] == s[1..][j - 1];
          }
        }
      }
    }
  }

  /** In a descending sequence, the first score is at least every later one. */
  lemma {:induction false} DescendingHead(s: seq<SuggestedPhenotype>, j: nat)
    requires ScoresDescending(s) && j < |s|
    ensures s[0].score >= s[j].score
  {
    if j > 0 {
      DescendingHead(s, j - 1);
    }
  }

  // ---------------------------------------------------------------------------
  // The values the unit test uses

  const Instance: SuggestedPhenotype := SuggestedPhenotype(Some("123"), Some("Test Name"), 1.0)

  /** Ordering and equality disagree: the same id with a lower score is equal, yet compares as -1. */
  lemma EqualButOrdered()
    ensures Equals(Instance, Phenotype(SuggestedPhenotype(Some("123"), Some("Test Name"), 0.999)))
    ensures CompareTo(Instance, Some(SuggestedPhenotype(Some("123"), Some("Test Name"), 0.999))) == -1
  {
  }

  /** The comparisons the unit test makes, with their expected results. */
  lemma CompareToExamples()
    ensures CompareTo(Instance, None) == 0
    ensures CompareTo(Instance, Some(SuggestedPhenotype(Some("123"), Some("Test Name"), 1.0))) == 0
    ensures CompareTo(Instance, Some(SuggestedPhenotype(Some("123"), Some("Test Name"), 0.999))) == -1
    ensures CompareTo(Instance, Some(SuggestedPhenotype(Some("!!!!!"), Some("!!!!!"), 1.0))) == 0
    ensures CompareTo(Instance, Some(SuggestedPhenotype(Some("123"), Some("Test Name"), -1.0))) == -1
    ensures CompareTo(Instance, Some(SuggestedPhenotype(Some("123"), Some("Test Name"), -999999.0))) == -1
    ensures CompareTo(Instance, Some(SuggestedPhenotype(Some("123"), Some("Test Name"), 1.1))) == 1
    ensures CompareTo(Instance, Some(SuggestedPhenotype(Some("123"), Some("Test Name"), 999999.0))) == 1
  {
  }
}
