/** What the claim score promises through both of its roundings. */
module ScoringProofs {
  import opened Wrappers
  import opened Scoring

  // ---- Rounding

  lemma RoundedIsMonotone(x: real, y: real)
    requires 0.0 <= x <= y
    ensures 0.0 <= Rounded(x) <= Rounded(y)
  {
    assert (x * 10000.0 + 0.5).Floor <= (y * 10000.0 + 0.5).Floor;
    assert (x * 10000.0 + 0.5).Floor >= 0;
  }

  lemma RoundedUnit(x: real)
    requires IsUnit(x)
    ensures IsUnit(Rounded(x))
  {
  }

  lemma RoundedOfOne()
    ensures Rounded(1.0) == 1.0 && Rounded(0.0) == 0.0
  {
  }

  // ---- Shares

  /** Comparing quotients by their cross products. */
  lemma CompareQuotients(p: real, q: real, a: real, b: real)
    requires a > 0.0 && b > 0.0 && p * a * b <= q * b * a
    ensures p <= q
  {
  }

  lemma ShareIsUnit(part: real, total: real)
    requires 0.0 <= part <= total
    ensures IsUnit(ShareOf(part, total))
  {
    if total > 0.0 {
      var q := part / total;
      assert q * total == part;
      CompareQuotients(q, 1.0, total, 1.0);
    }
  }

  lemma ShareIsMonotone(part: real, more: real, total: real)
    requires 0.0 <= part <= more <= total
    ensures ShareOf(part, total) <= ShareOf(more, total)
  {
  }

  lemma CrossProduct(s: real, o: real, s': real, o': real)
    requires 0.0 <= s' <= s && 0.0 <= o <= o'
    ensures s' * (s + o) <= s * (s' + o')
  {
  }

  /** Less support against more opposition is a smaller share, down to the empty contest. */
  lemma SupportShareDrops(s: real, o: real, s': real, o': real)
    requires 0.0 <= s' <= s && 0.0 <= o <= o'
    ensures ShareOf(s', s' + o') <= ShareOf(s, s + o)
  {
    ShareIsUnit(s, s + o);
    if s' + o' > 0.0 && s + o > 0.0 {
      CrossProduct(s, o, s', o');
      QuotientsByCross(s', s' + o', s, s + o);
    }
  }

  lemma QuotientsByCross(x: real, a: real, y: real, b: real)
    requires a > 0.0 && b > 0.0 && x * b <= y * a
    ensures x / a <= y / b
  {
    var p, q := x / a, y / b;
    assert p * a == x && q * b == y;
    assert p * a * b == x * b && q * b * a == y * a;
    CompareQuotients(p, q, a, b);
  }

  // ---- Sums over evidence

  lemma WeightedSign(e: Evidence)
    requires IsUnit(e.score) && IsUnit(e.weight)
    ensures 0.0 <= Weighted(e) <= e.weight
  {
    ProductSign(e.score, e.weight);
    ProductSign(1.0 - e.score, e.weight);
  }

  lemma ProductSign(x: real, y: real)
    requires x >= 0.0 && y >= 0.0
    ensures x * y >= 0.0
  {
  }

  lemma {:induction false} SumsAreOrdered(items: seq<Evidence>)
    requires InRange(items)
    ensures 0.0 <= WeightOf(items, Supports) && 0.0 <= WeightOf(items, Opposes)
    ensures 0.0 <= TotalEffective(items) <= TotalWeight(items)
  {
    if items != [] {
      hide Weighted;
      assert items == [items[0]] + items[1..];
      assert items[0] in items;
      WeightedSign(items[0]);
      SumsAreOrdered(items[1..]);
    }
  }

  lemma CountIsUnit(n: nat, target: int)
    requires target >= 1
    ensures IsUnit(AtMostOne(n as real / target as real))
  {
  }

  /** Inputs built from acceptable evidence pass every later range check. */
  lemma BuiltInputsAreAccepted(items: seq<Evidence>, policy: Policy)
    requires BuildInputs(items, policy).Ok?
    ensures ClaimScore(items, policy).Ok?
    ensures IsUnit(ClaimScore(items, policy).value.numeric)
  {
    hide Rounded, RawScore, WeightOf, TotalEffective, TotalWeight, IndependentCount, ShareOf, AtMostOne, LevelOf;
    var inputs := BuildInputs(items, policy).value;
    RoundedOfOne();
    if items != [] {
      SumsAreOrdered(items);
      var s, o := WeightOf(items, Supports), WeightOf(items, Opposes);
      RoundedIsMonotone(0.0, s);
      RoundedIsMonotone(0.0, o);
      ShareIsUnit(TotalEffective(items), TotalWeight(items));
      ShareIsUnit(o, s + o);
      RoundedUnit(ShareOf(TotalEffective(items), TotalWeight(items)));
      RoundedUnit(ShareOf(o, s + o) * 0.25);
      CountIsUnit(RelevantCount(items), policy.targetEvidence);
      CountIsUnit(IndependentCount(items), policy.targetIndependent);
      CountIsUnit(|items|, policy.targetSample);
      RoundedUnit(AtMostOne(RelevantCount(items) as real / policy.targetEvidence as real));
      RoundedUnit(AtMostOne(IndependentCount(items) as real / policy.targetIndependent as real));
      RoundedUnit(AtMostOne(|items| as real / policy.targetSample as real));
    }
    ClampedIsUnit(RawScore(inputs));
    RoundedUnit(Clamped(RawScore(inputs)));
  }

  lemma ClampedIsUnit(x: real)
    ensures IsUnit(Clamped(x))
  {
  }

  // ---- Turning one item from support to opposition

  function Turned(items: seq<Evidence>, i: nat): seq<Evidence>
    requires i < |items|
  {
    items[i := items[i].(stance := Opposes)]
  }

  lemma {:induction false} TurnedSums(items: seq<Evidence>, i: nat)
    requires i < |items| && items[i].stance == Supports
    ensures var e, turned := Weighted(items[i]), Turned(items, i);
            && WeightOf(turned, Supports) == WeightOf(items, Supports) - e
            && WeightOf(turned, Opposes) == WeightOf(items, Opposes) + e
            && TotalEffective(turned) == TotalEffective(items)
            && TotalWeight(turned) == TotalWeight(items)
            && RelevantCount(turned) == RelevantCount(items)
    decreases i
  {
    var turned := Turned(items, i);
    if i == 0 {
      assert turned[1..] == items[1..];
      assert Weighted(turned[0]) == Weighted(items[0]);
    } else {
      assert turned[0] == items[0] && turned[1..] == Turned(items[1..], i - 1);
      TurnedSums(items[1..], i - 1);
    }
    hide Weighted;
  }

  /** Every item has a counterpart on the other side with the same names. */
  lemma TurnedMembers(items: seq<Evidence>, i: nat)
    requires i < |items| && items[i].stance == Supports
    ensures forall e: Evidence | e in Turned(items, i) ::
              e in items || (e == items[i].(stance := Opposes) && items[i] in items)
    ensures forall e: Evidence | e in items ::
              e in Turned(items, i) || (e == items[i] && e.(stance := Opposes) in Turned(items, i))
  {
    var turned := Turned(items, i);
    forall e: Evidence | e in items
      ensures e in turned || (e == items[i] && e.(stance := Opposes) in turned)
    {
      var k :| 0 <= k < |items| && items[k] == e;
      assert turned[k] == if k == i then e.(stance := Opposes) else e;
      assert turned[k] in turned;
    }
  }

  lemma TurnedGroups(items: seq<Evidence>, i: nat)
    requires i < |items| && items[i].stance == Supports
    ensures IndependentGroups(Turned(items, i)) == IndependentGroups(items)
    ensures DuplicateGroups(Turned(items, i)) == DuplicateGroups(items)
    ensures SourceGroups(Turned(items, i)) == SourceGroups(items)
  {
    var turned := Turned(items, i);
    TurnedMembers(items, i);
    hide FirstNamed;
    var e := items[i];
    var t: Evidence := e.(stance := Opposes);
    assert ContentName(t) == ContentName(e);
    assert IndependentGroups(turned) == IndependentGroups(items);
    assert DuplicateGroups(turned) == DuplicateGroups(items);
    assert SourceGroups(turned) == SourceGroups(items);
  }

  lemma TurnedAcceptance(items: seq<Evidence>, i: nat)
    requires i < |items| && items[i].stance == Supports
    ensures DistinctIds(Turned(items, i)) <==> DistinctIds(items)
    ensures InRange(Turned(items, i)) <==> InRange(items)
  {
    TurnedMembers(items, i);
    var turned := Turned(items, i);
    assert forall k | 0 <= k < |items| :: turned[k].id == items[k].id;
  }

  /** Inputs that differ only by less support, more opposition and more penalty. */
  ghost predicate IsWorse(a: ConfidenceInputs, b: ConfidenceInputs) {
    && 0.0 <= a.support <= b.support && 0.0 <= b.opposition <= a.opposition && b.penalty <= a.penalty
    && a == b.(support := a.support, opposition := a.opposition, penalty := a.penalty)
  }

  lemma TurnedInputs(items: seq<Evidence>, i: nat, policy: Policy)
    requires i < |items| && items[i].stance == Supports && BuildInputs(items, policy).Ok?
    ensures BuildInputs(Turned(items, i), policy).Ok?
    ensures IsWorse(BuildInputs(Turned(items, i), policy).value, BuildInputs(items, policy).value)
  {
    hide Rounded, WeightOf, TotalEffective, TotalWeight, RelevantCount, ShareOf, AtMostOne, Weighted,
         IndependentGroups, DuplicateGroups, SourceGroups, DistinctIds, InRange;
    var turned := Turned(items, i);
    TurnedAcceptance(items, i);
    TurnedSums(items, i);
    TurnedGroups(items, i);
    SumsAreOrdered(items);
    SumsAreOrdered(turned);
    ItemSign(items, i);
    var s, o := WeightOf(items, Supports), WeightOf(items, Opposes);
    var s', o' := WeightOf(turned, Supports), WeightOf(turned, Opposes);
    RoundedIsMonotone(s', s);
    RoundedIsMonotone(o, o');
    ShareIsMonotone(o, o', s + o);
    ShareIsUnit(o, s + o);
    RoundedIsMonotone(ShareOf(o, s + o) * 0.25, ShareOf(o', s + o) * 0.25);
  }

  lemma ItemSign(items: seq<Evidence>, i: nat)
    requires i < |items| && InRange(items)
    ensures Weighted(items[i]) >= 0.0
  {
  }

  predicate NotAbove(a: Level, b: Level) {
    a == b || a == Low || b == High
  }

  lemma WorseScoresLower(a: ConfidenceInputs, b: ConfidenceInputs, policy: Policy)
    requires IsWorse(a, b) && ScoreOf(a, policy).Ok? && ScoreOf(b, policy).Ok?
    ensures ScoreOf(a, policy).value.numeric <= ScoreOf(b, policy).value.numeric
    ensures NotAbove(ScoreOf(a, policy).value.level, ScoreOf(b, policy).value.level)
  {
    SupportShareDrops(b.support, b.opposition, a.support, a.opposition);
    assert RawScore(a) <= RawScore(b) by {
      hide ShareOf;
    }
    hide RawScore, Rounded, ShareOf, IsCapped;
    ClampedIsUnit(RawScore(a));
    RoundedIsMonotone(Clamped(RawScore(a)), Clamped(RawScore(b)));
  }

  /** Turning any one supporting item into an opposing one never raises the score or the level. */
  lemma TurningNeverHelps(items: seq<Evidence>, i: nat, policy: Policy)
    requires i < |items| && items[i].stance == Supports
    ensures ClaimScore(Turned(items, i), policy).Ok? <==> ClaimScore(items, policy).Ok?
    ensures ClaimScore(items, policy).Ok? ==>
              var before, after := ClaimScore(items, policy).value, ClaimScore(Turned(items, i), policy).value;
              after.numeric <= before.numeric && NotAbove(after.level, before.level)
  {
    hide ScoreOf;
    TurnedAcceptance(items, i);
    if BuildInputs(items, policy).Ok? {
      TurnedInputs(items, i, policy);
      BuiltInputsAreAccepted(items, policy);
      BuiltInputsAreAccepted(Turned(items, i), policy);
      WorseScoresLower(BuildInputs(Turned(items, i), policy).value, BuildInputs(items, policy).value, policy);
    }
  }
}
