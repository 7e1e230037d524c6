/** What the score says of the evidence: its thresholds, the part each factor plays, and what the factors count. */
module ScoringMeanings {
  import opened Wrappers
  import opened Scoring
  import opened ScoringProofs
  import opened ScoringCeiling

  // ---- From factors to level

  lemma FloorReaches(y: real, n: int)
    ensures y.Floor >= n <==> y >= n as real
  {
    assert y.Floor as real <= y < y.Floor as real + 1.0;
  }

  /** Four decimals, halves up. */
  lemma RoundedReaches(x: real, n: nat)
    requires x >= 0.0
    ensures Rounded(x) >= n as real / 10000.0 <==> x >= (n as real - 0.5) / 10000.0
  {
    var y := x * 10000.0 + 0.5;
    FloorReaches(y, n);
    assert Rounded(x) == y.Floor as real / 10000.0;
    hide Rounded;
  }

  /** And the same downwards below zero. */
  lemma RoundedIsOdd(x: real)
    ensures Rounded(-x) == -Rounded(x)
  {
    if x == 0.0 {
      RoundedOfOne();
    }
  }

  predicate AreValid(i: ConfidenceInputs) {
    && i.support >= 0.0 && i.opposition >= 0.0
    && IsUnit(i.average) && IsUnit(i.coverage) && IsUnit(i.diversity) && IsUnit(i.sample) && IsUnit(i.penalty)
  }

  /** The share of the support in the contest, none if there is none. */
  function SupportShare(i: ConfidenceInputs): real {
    if i.support + i.opposition == 0.0 then 0.0 else i.support / (i.support + i.opposition)
  }

  /** Four tenths of the support share, a quarter of the average, 0.15 of the coverage and a tenth each of
      diversity and sample, less the penalty. */
  function Weighing(i: ConfidenceInputs): real {
    0.4 * SupportShare(i) + 0.25 * i.average + 0.15 * i.coverage + 0.1 * i.diversity + 0.1 * i.sample - i.penalty
  }

  lemma RawIsWeighing(i: ConfidenceInputs)
    ensures RawScore(i) == Weighing(i)
  {
    hide SupportShare;
    assert SupportShare(i) == ShareOf(i.support, i.support + i.opposition) by {
      ShareIs(i);
    }
    hide ShareOf;
  }

  lemma ShareIs(i: ConfidenceInputs)
    ensures SupportShare(i) == ShareOf(i.support, i.support + i.opposition)
  {
  }

  lemma ClampedReaches(x: real, n: nat)
    requires 1 <= n <= 10000
    ensures Rounded(Clamped(x)) >= n as real / 10000.0 <==> x >= (n as real - 0.5) / 10000.0
  {
    ClampedIsUnit(x);
    RoundedReaches(Clamped(x), n);
    hide Rounded;
  }

  /** The level is high exactly from 0.74995 on, with diversity of at least two shares of the target, and low
      exactly below 0.49995. */
  lemma LevelIff(i: ConfidenceInputs, policy: Policy)
    requires AreValid(i)
    ensures ScoreOf(i, policy).Ok?
    ensures ScoreOf(i, policy).value.level == High <==>
            Weighing(i) >= 0.74995 && i.diversity >= 2.0 / policy.targetIndependent as real
    ensures ScoreOf(i, policy).value.level == Low <==> Weighing(i) < 0.49995
  {
    RawIsWeighing(i);
    var x := Weighing(i);
    ClampedReaches(x, 7500);
    ClampedReaches(x, 5000);
    hide RawScore, Weighing, Rounded, Clamped;
  }

  /** Without the ceiling, the number is the rounded weighing, cut to [0, 1]; under the ceiling it stops at
      0.7499. */
  lemma NumericIs(i: ConfidenceInputs, policy: Policy)
    requires AreValid(i)
    ensures ScoreOf(i, policy).Ok?
    ensures var x := Weighing(i);
            var cut := Rounded(if x <= 0.0 then 0.0 else if x >= 1.0 then 1.0 else x);
            ScoreOf(i, policy).value.numeric
            == if i.diversity < 2.0 / policy.targetIndependent as real && cut > 0.7499 then 0.7499 else cut
  {
    RawIsWeighing(i);
    hide RawScore, Weighing, Rounded;
  }

  // ---- What the factors do

  /** One factor moved from `x` to `y` and nothing else moves the weighing by its own part of the difference. */
  lemma FactorsMoveTheScore(i: ConfidenceInputs, y: real)
    ensures RawScore(i.(average := y)) - RawScore(i) == 0.25 * (y - i.average)
    ensures RawScore(i.(coverage := y)) - RawScore(i) == 0.15 * (y - i.coverage)
    ensures RawScore(i.(diversity := y)) - RawScore(i) == 0.1 * (y - i.diversity)
    ensures RawScore(i.(sample := y)) - RawScore(i) == 0.1 * (y - i.sample)
    ensures RawScore(i.(penalty := y)) - RawScore(i) == i.penalty - y
  {
    hide ShareOf;
  }

  /** With every other factor at nothing, the support share alone brings four tenths of itself. */
  lemma SupportAlone(support: real, opposition: real)
    requires support >= 0.0 && opposition >= 0.0 && support + opposition > 0.0
    ensures RawScore(ConfidenceInputs(support, opposition, 0.0, 0.0, 0.0, 0.0, 0.0))
         == 0.4 * (support / (support + opposition))
  {
    RawIsWeighing(ConfidenceInputs(support, opposition, 0.0, 0.0, 0.0, 0.0, 0.0));
    hide RawScore;
  }

  /** With every other factor at one and the penalty that goes with the share, evidence becomes high at a
      support share of 7999/13000. */
  lemma ShareThreshold(i: ConfidenceInputs, policy: Policy)
    requires AreValid(i) && i.average == i.coverage == i.diversity == i.sample == 1.0
    requires i.penalty == 0.25 * (1.0 - SupportShare(i)) && policy.targetIndependent >= 2
    ensures ScoreOf(i, policy).Ok?
    ensures ScoreOf(i, policy).value.level == High <==> 13000.0 * SupportShare(i) >= 7999.0
  {
    LevelIff(i, policy);
    AtMostTwoShares(policy.targetIndependent);
    hide SupportShare, ScoreOf;
  }

  lemma AtMostTwoShares(target: int)
    requires target >= 2
    ensures 2.0 / target as real <= 1.0
  {
  }

  /** Two in favour and three against, everything else at its best: 0.61, medium. */
  lemma TwoAgainstThree(policy: Policy)
    requires policy.targetIndependent >= 2
    ensures ScoreOf(ConfidenceInputs(2.0, 3.0, 1.0, 1.0, 1.0, 1.0, 0.15), policy) == Ok(Score(0.61, Medium))
  {
    var i := ConfidenceInputs(2.0, 3.0, 1.0, 1.0, 1.0, 1.0, 0.15);
    assert SupportShare(i) == 0.4;
    assert Weighing(i) == 0.61;
    NumericIs(i, policy);
    LevelIff(i, policy);
    AtMostTwoShares(policy.targetIndependent);
    assert Rounded(0.61) == 0.61 by {
      assert (0.61 * 10000.0 + 0.5).Floor == 6100;
    }
  }

  lemma HalfAtMost(part: real, rest: real)
    requires 0.0 <= part <= rest
    ensures ShareOf(part, part + rest) <= 0.5
    ensures part + rest > 0.0 ==> ShareOf(rest, part + rest) >= 0.5
  {
    if part + rest > 0.0 {
      var p, q := part / (part + rest), rest / (part + rest);
      assert p * (part + rest) == part && q * (part + rest) == rest;
      CompareQuotients(p, 0.5, part + rest, 1.0);
      CompareQuotients(0.5, q, part + rest, 1.0);
    }
  }

  lemma RoundedEighth()
    ensures Rounded(0.125) == 0.125
  {
    assert (0.125 * 10000.0 + 0.5).Floor == 1250;
  }

  lemma OpposedInputs(i: ConfidenceInputs, s: real, o: real)
    requires AreValid(i) && 0.0 <= s <= o && i.support == Rounded(s) && i.opposition == Rounded(o)
    requires s + o > 0.0 ==> i.penalty == Rounded(o / (s + o) * 0.25)
    ensures Weighing(i) < 0.74995
  {
    RoundedIsMonotone(s, o);
    ShareIs(i);
    HalfAtMost(i.support, i.opposition);
    HalfAtMost(s, o);
    if s + o > 0.0 {
      Quotient(o, s + o);
      RoundedEighth();
      RoundedIsMonotone(0.125, ShareOf(o, s + o) * 0.25);
      hide Rounded, ShareOf, SupportShare;
    } else {
      RoundedOfOne();
      assert i.support == 0.0 && i.opposition == 0.0 && SupportShare(i) == 0.0;
      hide Rounded, ShareOf, SupportShare;
    }
  }

  lemma AcceptedAreValid(i: ConfidenceInputs, policy: Policy)
    requires ScoreOf(i, policy).Ok?
    ensures AreValid(i)
  {
    hide Rounded, RawScore, Clamped, LevelOf;
  }

  /** Evidence opposed at least as strongly as it is supported is never high. */
  lemma OpposedIsNeverHigh(items: seq<Evidence>, policy: Policy)
    requires ClaimScore(items, policy).Ok? && WeightOf(items, Opposes) >= WeightOf(items, Supports)
    ensures ClaimScore(items, policy).value.level != High
  {
    var i := BuildInputs(items, policy).value;
    if items == [] {
      NothingWeighs(i);
    }
    hide *;
    ScoreIsOfInputs(items, policy);
    AcceptedAreValid(i, policy);
    LevelIff(i, policy);
    if items != [] {
      AcceptedInRange(items, policy);
      SumsAreOrdered(items);
      WeightsAre(items, policy);
      OpposedInputs(i, WeightOf(items, Supports), WeightOf(items, Opposes));
    }
  }

  lemma ScoreIsOfInputs(items: seq<Evidence>, policy: Policy)
    requires ClaimScore(items, policy).Ok?
    ensures BuildInputs(items, policy).Ok?
    ensures ClaimScore(items, policy) == ScoreOf(BuildInputs(items, policy).value, policy)
  {
    hide BuildInputs, ScoreOf;
  }

  lemma AcceptedInRange(items: seq<Evidence>, policy: Policy)
    requires items != [] && BuildInputs(items, policy).Ok?
    ensures InRange(items)
  {
    hide Rounded, WeightOf, TotalEffective, TotalWeight, RelevantCount, IndependentCount, ShareOf, AtMostOne;
  }

  lemma NothingWeighs(i: ConfidenceInputs)
    requires i == ConfidenceInputs(0.0, 0.0, 0.0, 0.0, 0.0, 0.0, 0.0)
    ensures Weighing(i) == 0.0
  {
  }

  // ---- From evidence to factors

  /** Weights add up over any split of the evidence, and one item weighs its score times its weight, for its
      own stance; so do totals and counts. */
  lemma {:induction false} SumsAdd(a: seq<Evidence>, b: seq<Evidence>, stance: Stance)
    ensures WeightOf(a + b, stance) == WeightOf(a, stance) + WeightOf(b, stance)
    ensures TotalEffective(a + b) == TotalEffective(a) + TotalEffective(b)
    ensures TotalWeight(a + b) == TotalWeight(a) + TotalWeight(b)
    ensures RelevantCount(a + b) == RelevantCount(a) + RelevantCount(b)
  {
    if a == [] {
      assert a + b == b;
    } else {
      assert (a + b)[0] == a[0] && (a + b)[1..] == a[1..] + b;
      SumsAdd(a[1..], b, stance);
    }
  }

  lemma SumsOfOne(e: Evidence, stance: Stance)
    ensures WeightOf([e], stance) == if e.stance == stance then e.score * e.weight else 0.0
    ensures TotalEffective([e]) == e.score * e.weight && TotalWeight([e]) == e.weight
    ensures RelevantCount([e]) == if e.stance == Neutral then 0 else 1
  {
    assert [e][1..] == [];
    assert WeightOf([], stance) == 0.0 && TotalEffective([]) == 0.0 && TotalWeight([]) == 0.0;
  }

  predicate IsNamed(name: Option<string>) {
    name != None && name != Some("")
  }

  /** The source of an item if named, else its content. */
  function SourceName(e: Evidence): string {
    if IsNamed(e.sourceConnection) then e.sourceConnection.value else "content:" + e.contentVersionId
  }

  /** Of the items that take a side: the independence group is the one named, else the source; the cluster is
      the one named, else the content. */
  lemma GroupsAre(items: seq<Evidence>)
    ensures IndependentGroups(items) == set e: Evidence | e in items && e.stance != Neutral
                                         :: if IsNamed(e.independenceGroup) then e.independenceGroup.value
                                            else SourceName(e)
    ensures DuplicateGroups(items) == set e: Evidence | e in items && e.stance != Neutral
                                       :: if IsNamed(e.duplicateCluster) then e.duplicateCluster.value
                                          else "content:" + e.contentVersionId
    ensures SourceGroups(items) == set e: Evidence | e in items && e.stance != Neutral :: SourceName(e)
  {
    forall e: Evidence
      ensures FirstNamed(e.sourceConnection, ContentName(e)) == SourceName(e)
      ensures FirstNamed(e.independenceGroup, FirstNamed(e.sourceConnection, ContentName(e)))
           == if IsNamed(e.independenceGroup) then e.independenceGroup.value else SourceName(e)
      ensures FirstNamed(e.duplicateCluster, ContentName(e))
           == if IsNamed(e.duplicateCluster) then e.duplicateCluster.value else "content:" + e.contentVersionId
    {
    }
    hide FirstNamed, SourceName, IsNamed;
  }

  /** Accepted evidence is counted against the three targets, each cut at one and rounded: the items that take
      a side, the least of the three numbers of groups, and all items. */
  lemma CountsAre(items: seq<Evidence>, policy: Policy)
    requires items != [] && BuildInputs(items, policy).Ok?
    ensures var i := BuildInputs(items, policy).value;
            && i.coverage == DiversityUnits(RelevantCount(items), policy.targetEvidence) as real / 10000.0
            && i.diversity == DiversityUnits(IndependentCount(items), policy.targetIndependent) as real / 10000.0
            && i.sample == DiversityUnits(|items|, policy.targetSample) as real / 10000.0
  {
    hide Rounded, DiversityUnits, AtMostOne, ShareOf, WeightOf, TotalEffective, TotalWeight, RelevantCount,
         IndependentCount, DistinctIds, InRange;
    UnitsAreRounded(RelevantCount(items), policy.targetEvidence);
    UnitsAreRounded(IndependentCount(items), policy.targetIndependent);
    UnitsAreRounded(|items|, policy.targetSample);
  }

  /** The average is effective weight by weight, and the penalty a quarter of the opposing share. */
  lemma WeightsAre(items: seq<Evidence>, policy: Policy)
    requires items != [] && BuildInputs(items, policy).Ok?
    ensures var i := BuildInputs(items, policy).value;
            var s, o := WeightOf(items, Supports), WeightOf(items, Opposes);
            && i.support == Rounded(s) && i.opposition == Rounded(o)
            && (TotalWeight(items) != 0.0 ==> i.average == Rounded(TotalEffective(items) / TotalWeight(items)))
            && (s + o != 0.0 ==> i.penalty == Rounded(o / (s + o) * 0.25))
  {
    hide Rounded, AtMostOne, ShareOf, WeightOf, TotalEffective, TotalWeight, RelevantCount, IndependentCount,
         DistinctIds, InRange;
    var s, o := WeightOf(items, Supports), WeightOf(items, Opposes);
    Quotient(TotalEffective(items), TotalWeight(items));
    Quotient(o, s + o);
  }

  lemma Quotient(part: real, total: real)
    ensures total != 0.0 ==> ShareOf(part, total) == part / total
  {
  }

  /** The independent count is the least of the three numbers of groups. */
  lemma CountIsLeast(items: seq<Evidence>)
    ensures var n := IndependentCount(items);
            && n <= |IndependentGroups(items)| && n <= |DuplicateGroups(items)| && n <= |SourceGroups(items)|
            && n in {|IndependentGroups(items)|, |DuplicateGroups(items)|, |SourceGroups(items)|}
  {
  }

  /** Evidence is accepted exactly if its ids differ and all scores and weights lie in [0, 1]. */
  lemma AcceptedIff(items: seq<Evidence>, policy: Policy)
    ensures BuildInputs(items, policy).Ok? <==>
            && (forall i, j | 0 <= i < j < |items| :: items[i].id != items[j].id)
            && forall i | 0 <= i < |items| ::
                 0.0 <= items[i].score <= 1.0 && 0.0 <= items[i].weight <= 1.0
  {
    hide Rounded, WeightOf, TotalEffective, TotalWeight, RelevantCount, IndependentCount, ShareOf, AtMostOne;
    assert forall i | 0 <= i < |items| :: items[i] in items;
  }
}
