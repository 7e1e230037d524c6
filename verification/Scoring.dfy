/** Claim confidence: a weighted score in four decimals under a diversity ceiling. */
module Scoring {
  import opened Wrappers

  datatype Stance = Supports | Opposes | Neutral

  datatype Level = Low | Medium | High

  datatype ScoreError = RepeatedEvidence | OutOfRange | NegativeWeight

  datatype RawEvidence = Evidence(id: string, reviewId: string, contentVersionId: string,
                                  score: real, stance: Stance, weight: real,
                                  independenceGroup: Option<string>, duplicateCluster: Option<string>,
                                  sourceConnection: Option<string>)

  predicate IsEvidence(e: RawEvidence) {
    e.id != "" && e.reviewId != "" && e.contentVersionId != ""
  }

  type Evidence = e: RawEvidence | IsEvidence(e)
    witness RawEvidence.Evidence("e", "r", "c", 0.0, Neutral, 0.0, None, None, None)

  datatype RawPolicy = Policy(targetEvidence: int, targetIndependent: int, targetSample: int)

  predicate IsPolicy(p: RawPolicy) {
    p.targetEvidence >= 1 && p.targetIndependent >= 1 && p.targetSample >= 1
  }

  type Policy = p: RawPolicy | IsPolicy(p) witness RawPolicy.Policy(3, 3, 4)

  datatype ConfidenceInputs = ConfidenceInputs(support: real, opposition: real, average: real, coverage: real,
                                               diversity: real, sample: real, penalty: real)

  datatype Score = Score(numeric: real, level: Level)

  /** Four decimals, halves away from zero. */
  function Rounded(x: real): real {
    if x >= 0.0 then (x * 10000.0 + 0.5).Floor as real / 10000.0
    else -((-x * 10000.0 + 0.5).Floor as real / 10000.0)
  }

  function LevelOf(score: real): Level {
    if score >= 0.75 then High else if score >= 0.5 then Medium else Low
  }

  predicate IsUnit(x: real) {
    0.0 <= x <= 1.0
  }

  function AtMostOne(x: real): real {
    if x < 1.0 then x else 1.0
  }

  /** A share of a total, or nothing of nothing. */
  function ShareOf(part: real, total: real): real {
    if total == 0.0 then 0.0 else part / total
  }

  function Weighted(e: Evidence): real {
    e.score * e.weight
  }

  /** The weighted scores of the items with this stance. */
  function WeightOf(items: seq<Evidence>, stance: Stance): real {
    if items == [] then 0.0
    else (if items[0].stance == stance then Weighted(items[0]) else 0.0) + WeightOf(items[1..], stance)
  }

  function TotalEffective(items: seq<Evidence>): real {
    if items == [] then 0.0 else Weighted(items[0]) + TotalEffective(items[1..])
  }

  function TotalWeight(items: seq<Evidence>): real {
    if items == [] then 0.0 else items[0].weight + TotalWeight(items[1..])
  }

  function RelevantCount(items: seq<Evidence>): nat {
    if items == [] then 0
    else (if items[0].stance != Neutral then 1 else 0) + RelevantCount(items[1..])
  }

  /** The first of these names that is there and not empty. */
  function FirstNamed(name: Option<string>, otherwise: string): string {
    if name.Some? && name.value != "" then name.value else otherwise
  }

  function ContentName(e: Evidence): string {
    "content:" + e.contentVersionId
  }

  function IndependentGroups(items: seq<Evidence>): set<string> {
    set e: Evidence | e in items && e.stance != Neutral
      :: FirstNamed(e.independenceGroup, FirstNamed(e.sourceConnection, ContentName(e)))
  }

  function DuplicateGroups(items: seq<Evidence>): set<string> {
    set e: Evidence | e in items && e.stance != Neutral :: FirstNamed(e.duplicateCluster, ContentName(e))
  }

  function SourceGroups(items: seq<Evidence>): set<string> {
    set e: Evidence | e in items && e.stance != Neutral :: FirstNamed(e.sourceConnection, ContentName(e))
  }

  function IndependentCount(items: seq<Evidence>): nat {
    var i, d, s := |IndependentGroups(items)|, |DuplicateGroups(items)|, |SourceGroups(items)|;
    if i <= d && i <= s then i else if d <= s then d else s
  }

  predicate DistinctIds(items: seq<Evidence>) {
    forall i, j | 0 <= i < j < |items| :: items[i].id != items[j].id
  }

  predicate InRange(items: seq<Evidence>) {
    forall e: Evidence | e in items :: IsUnit(e.score) && IsUnit(e.weight)
  }

  function BuildInputs(items: seq<Evidence>, policy: Policy): Result<ConfidenceInputs, ScoreError> {
    if items == [] then Ok(ConfidenceInputs(0.0, 0.0, 0.0, 0.0, 0.0, 0.0, 0.0))
    else if !DistinctIds(items) then Err(RepeatedEvidence)
    else if !InRange(items) then Err(OutOfRange)
    else
      var support, opposition := WeightOf(items, Supports), WeightOf(items, Opposes);
      Ok(ConfidenceInputs(
           Rounded(support), Rounded(opposition),
           Rounded(ShareOf(TotalEffective(items), TotalWeight(items))),
           Rounded(AtMostOne(RelevantCount(items) as real / policy.targetEvidence as real)),
           Rounded(AtMostOne(IndependentCount(items) as real / policy.targetIndependent as real)),
           Rounded(AtMostOne(|items| as real / policy.targetSample as real)),
           Rounded(ShareOf(opposition, support + opposition) * 0.25)))
  }

  /** The score before rounding and ceiling. */
  function RawScore(inputs: ConfidenceInputs): real {
    ShareOf(inputs.support, inputs.support + inputs.opposition) * 0.4 + inputs.average * 0.25
    + inputs.coverage * 0.15 + inputs.diversity * 0.1 + inputs.sample * 0.1 - inputs.penalty
  }

  function Clamped(x: real): real {
    AtMostOne(if x > 0.0 then x else 0.0)
  }

  /** Too few independent groups for the high level. */
  predicate IsCapped(diversity: real, policy: Policy) {
    diversity < 2.0 / policy.targetIndependent as real
  }

  function ScoreOf(inputs: ConfidenceInputs, policy: Policy): Result<Score, ScoreError> {
    if inputs.support < 0.0 || inputs.opposition < 0.0 then Err(NegativeWeight)
    else if !(IsUnit(inputs.average) && IsUnit(inputs.coverage) && IsUnit(inputs.diversity)
              && IsUnit(inputs.sample) && IsUnit(inputs.penalty)) then Err(OutOfRange)
    else
      var uncapped := Rounded(Clamped(RawScore(inputs)));
      var numeric := if IsCapped(inputs.diversity, policy) && uncapped > 0.7499 then 0.7499 else uncapped;
      Ok(Score(numeric, LevelOf(numeric)))
  }

  function ClaimScore(items: seq<Evidence>, policy: Policy): Result<Score, ScoreError> {
    match BuildInputs(items, policy)
    case Err(e) => Err(e)
    case Ok(inputs) => ScoreOf(inputs, policy)
  }
}
