/** The diversity ceiling: how many independent groups the high level takes under each policy. */
module ScoringCeiling {
  import opened Wrappers
  import opened Scoring
  import opened ScoringProofs

  ghost predicate HasTwoGroups(items: seq<Evidence>) {
    |IndependentGroups(items)| >= 2 && |DuplicateGroups(items)| >= 2 && |SourceGroups(items)| >= 2
  }

  ghost predicate IsHigh(items: seq<Evidence>, policy: Policy) {
    ClaimScore(items, policy).Ok? && ClaimScore(items, policy).value.level == High
  }

  // ---- The ceiling in whole numbers

  /** The diversity of `m` groups in units of 0.0001, halves rounded up. */
  function DiversityUnits(m: nat, target: int): nat
    requires target >= 1
  {
    if m >= target then 10000 else (20000 * m + target) / (2 * target)
  }

  /** `m` groups come up to the ceiling of two shares of the target. */
  predicate ReachesCeiling(m: nat, target: int)
    requires target >= 1
  {
    DiversityUnits(m, target) * target >= 20000
  }

  lemma Division(a: int, b: int)
    requires b > 0
    ensures a / b * b <= a < a / b * b + b
  {
  }

  lemma FloorOf(y: real, a: int, b: int)
    requires b > 0 && y * b as real == a as real
    ensures y.Floor == a / b
  {
    var q := a / b;
    Division(a, b);
    assert q as real * b as real <= y * b as real < (q + 1) as real * b as real;
    BelowByProduct(q as real, y, b as real);
    if y >= (q + 1) as real {
      ProductSign(y - (q + 1) as real, b as real);
    }
  }

  lemma BelowByProduct(x: real, y: real, b: real)
    requires b > 0.0 && x * b <= y * b
    ensures x <= y
  {
  }

  lemma QuotientBounds(a: real, b: real)
    requires a >= 0.0 && b > 0.0
    ensures a / b >= 0.0 && (a / b < 1.0 <==> a < b)
  {
    var q := a / b;
    assert q * b == a;
    AtLeastOnce(q, b);
    if a >= b {
      BelowByProduct(1.0, q, b);
    }
  }

  lemma AtLeastOnce(q: real, b: real)
    requires b > 0.0
    ensures q >= 1.0 ==> q * b >= b
  {
    if q >= 1.0 {
      ProductSign(q - 1.0, b);
      assert (q - 1.0) * b == q * b - b;
    }
  }

  lemma ScaledShare(m: nat, target: int)
    requires target >= 1
    ensures var x := m as real / target as real;
            (x * 10000.0 + 0.5) * (2 * target) as real == (20000 * m + target) as real
  {
    var x := m as real / target as real;
    assert x * target as real == m as real;
  }

  lemma UnitsAreRounded(m: nat, target: int)
    requires target >= 1
    ensures Rounded(AtMostOne(m as real / target as real)) == DiversityUnits(m, target) as real / 10000.0
  {
    var x := m as real / target as real;
    QuotientBounds(m as real, target as real);
    if m >= target {
      RoundedOfOne();
    } else {
      ScaledShare(m, target);
      FloorOf(x * 10000.0 + 0.5, 20000 * m + target, 2 * target);
    }
  }

  lemma CappedIff(units: nat, policy: Policy)
    ensures IsCapped(units as real / 10000.0, policy) <==> units * policy.targetIndependent < 20000
  {
    var t := policy.targetIndependent;
    var share := 2.0 / t as real;
    assert share * t as real == 2.0;
    assert (units * t) as real == units as real * t as real;
    var d := units as real / 10000.0;
    assert d * t as real * 10000.0 == (units * t) as real;
    if d < share {
      ProductSign(share - d, t as real);
      BelowStrictly(d, share, t as real);
    } else {
      ProductSign(d - share, t as real);
    }
  }

  lemma BelowStrictly(x: real, y: real, b: real)
    requires b > 0.0 && x < y
    ensures x * b < y * b
  {
  }

  /** High evidence is not capped. */
  lemma HighIsNotCapped(items: seq<Evidence>, policy: Policy)
    requires IsHigh(items, policy)
    ensures items != [] && !IsCapped(BuildInputs(items, policy).value.diversity, policy)
  {
    hide Rounded, RawScore, Clamped, WeightOf, TotalEffective, IndependentCount, ShareOf;
    assert 2.0 / policy.targetIndependent as real > 0.0;
  }

  lemma HighReachesCeiling(items: seq<Evidence>, policy: Policy)
    requires IsHigh(items, policy)
    ensures ReachesCeiling(IndependentCount(items), policy.targetIndependent)
  {
    hide IsCapped, Rounded, IndependentCount, AtMostOne, WeightOf, TotalEffective, TotalWeight, ScoreOf, DiversityUnits;
    HighIsNotCapped(items, policy);
    var m, target := IndependentCount(items), policy.targetIndependent;
    UnitsAreRounded(m, target);
    CappedIff(DiversityUnits(m, target), policy);
  }

  // ---- Evidence of so many groups

  function Repeated(n: nat): (id: string)
    requires n >= 1
    ensures |id| == n
  {
    seq(n, _ => 'e')
  }

  /** The `n`-th fully supporting item, of the `m`-th group at most. */
  function Supporter(n: nat, m: nat): Evidence
    requires n >= 1 && m >= 1
  {
    var group := Some(Repeated(if n < m then n else m));
    RawEvidence.Evidence(Repeated(n), "r", "c", 1.0, Supports, 1.0, group, group, group)
  }

  /** `n` fully supporting items of `m` groups. */
  function Voices(n: nat, m: nat): (items: seq<Evidence>)
    requires m >= 1
    ensures |items| == n
  {
    if n == 0 then [] else [Supporter(n, m)] + Voices(n - 1, m)
  }

  lemma {:induction false} VoicesItems(n: nat, m: nat, i: nat)
    requires m >= 1 && i < n
    ensures Voices(n, m)[i] == Supporter(n - i, m)
  {
    if i > 0 {
      VoicesItems(n - 1, m, i - 1);
    }
  }

  /** The sums of `n` fully supporting items. */
  ghost predicate SumsTo(items: seq<Evidence>, n: nat, total: real) {
    && WeightOf(items, Supports) == total && WeightOf(items, Opposes) == 0.0
    && TotalEffective(items) == total && TotalWeight(items) == total && RelevantCount(items) == n
  }

  lemma OneMore(e: Evidence, rest: seq<Evidence>, n: nat, total: real)
    requires Weighted(e) == 1.0 && e.stance == Supports && e.weight == 1.0 && SumsTo(rest, n, total)
    ensures SumsTo([e] + rest, n + 1, 1.0 + total)
  {
  }

  lemma {:induction false} VoicesSum(n: nat, m: nat)
    requires m >= 1
    ensures SumsTo(Voices(n, m), n, n as real)
  {
    if n > 0 {
      VoicesSum(n - 1, m);
      SupporterFacts(n, m);
      OneMore(Supporter(n, m), Voices(n - 1, m), n - 1, (n - 1) as real);
      assert 1.0 + (n - 1) as real == n as real;
    }
  }

  lemma SupporterFacts(n: nat, m: nat)
    requires n >= 1 && m >= 1
    ensures var e := Supporter(n, m);
            && Weighted(e) == 1.0 && IsUnit(e.score) && e.stance == Supports && e.weight == 1.0 && |e.id| == n
  {
  }

  lemma VoicesAreAccepted(n: nat, m: nat)
    requires m >= 1
    ensures DistinctIds(Voices(n, m)) && InRange(Voices(n, m))
  {
    var items := Voices(n, m);
    forall i | 0 <= i < n
      ensures items[i] == Supporter(n - i, m) && |items[i].id| == n - i
      ensures IsUnit(items[i].score) && IsUnit(items[i].weight)
    {
      VoicesItems(n, m, i);
      SupporterFacts(n - i, m);
    }
    hide Voices, Supporter;
  }

  /** The names of the first `m` groups. */
  function Names(m: nat): set<string> {
    if m == 0 then {} else {Repeated(m)} + Names(m - 1)
  }

  lemma {:induction false} NamesCount(m: nat)
    ensures |Names(m)| == m && forall name | name in Names(m) :: |name| <= m
  {
    if m > 0 {
      NamesCount(m - 1);
      assert Repeated(m) !in Names(m - 1);
    }
  }

  lemma NameIsThere(k: nat, m: nat)
    requires 1 <= k <= m
    ensures Repeated(k) in Names(m)
  {
  }

  lemma GroupsOfMore(e: Evidence, rest: seq<Evidence>, name: string)
    requires e.stance != Neutral && name != ""
    requires e.independenceGroup == e.duplicateCluster == e.sourceConnection == Some(name)
    ensures IndependentGroups([e] + rest) == {name} + IndependentGroups(rest)
    ensures DuplicateGroups([e] + rest) == {name} + DuplicateGroups(rest)
    ensures SourceGroups([e] + rest) == {name} + SourceGroups(rest)
  {
    var items := [e] + rest;
    assert items[0] == e && items[1..] == rest;
    assert forall x: Evidence :: x in items <==> x == e || x in rest;
  }

  lemma {:induction false} VoicesGroups(n: nat, m: nat)
    requires m >= 1
    ensures var names := Names(if n < m then n else m);
            var items := Voices(n, m);
            IndependentGroups(items) == DuplicateGroups(items) == SourceGroups(items) == names
  {
    if n > 0 {
      VoicesGroups(n - 1, m);
      hide IndependentGroups, DuplicateGroups, SourceGroups;
      var k := if n < m then n else m;
      GroupsOfMore(Supporter(n, m), Voices(n - 1, m), Repeated(k));
      NameIsThere(k, k);
    }
  }

  lemma VoicesCount(n: nat, m: nat)
    requires 1 <= m <= n
    ensures IndependentCount(Voices(n, m)) == m
  {
    hide Voices, Names, IndependentGroups, DuplicateGroups, SourceGroups;
    VoicesGroups(n, m);
    NamesCount(m);
  }

  lemma FullCount(n: nat, target: int)
    requires 1 <= target <= n
    ensures AtMostOne(n as real / target as real) == 1.0
  {
  }

  lemma UndividedShares(total: real)
    requires total > 0.0
    ensures ShareOf(total, total) == 1.0 && ShareOf(0.0, total + 0.0) == 0.0
  {
  }

  lemma VoicesInputs(n: nat, m: nat, policy: Policy)
    requires n >= policy.targetEvidence && n >= policy.targetSample && n >= m >= 1
    ensures var built := BuildInputs(Voices(n, m), policy);
            && built.Ok? && Rounded(n as real) > 0.0
            && built.value == ConfidenceInputs(Rounded(n as real), 0.0, 1.0, 1.0,
                                               DiversityUnits(m, policy.targetIndependent) as real / 10000.0, 1.0, 0.0)
  {
    hide Rounded, Voices, WeightOf, TotalEffective, TotalWeight, RelevantCount, IndependentCount, AtMostOne, ShareOf,
         DistinctIds, InRange, DiversityUnits;
    VoicesAreAccepted(n, m);
    VoicesSum(n, m);
    FullCount(n, policy.targetEvidence);
    FullCount(n, policy.targetSample);
    RoundedOfOne();
    RoundedIsMonotone(1.0, n as real);
    VoicesCount(n, m);
    UnitsAreRounded(m, policy.targetIndependent);
    UndividedShares(n as real);
  }

  lemma UnitsAreUnit(m: nat, target: int)
    requires target >= 1
    ensures DiversityUnits(m, target) <= 10000
  {
    if m < target {
      Division(20000 * m + target, 2 * target);
      if (20000 * m + target) / (2 * target) > 10000 {
        ProductsOrdered(10001, (20000 * m + target) / (2 * target), 2 * target);
      }
    }
  }

  lemma ProductsOrdered(a: int, b: int, c: int)
    requires a <= b && c >= 0
    ensures a * c <= b * c
  {
  }

  lemma FullSupportScores(inputs: ConfidenceInputs, policy: Policy)
    requires inputs.support > 0.0 && IsUnit(inputs.diversity) && !IsCapped(inputs.diversity, policy)
    requires inputs == ConfidenceInputs(inputs.support, 0.0, 1.0, 1.0, inputs.diversity, 1.0, 0.0)
    ensures ScoreOf(inputs, policy).Ok? && ScoreOf(inputs, policy).value.level == High
  {
    assert ShareOf(inputs.support, inputs.support + 0.0) == 1.0;
    assert 0.9 <= RawScore(inputs) <= 1.0;
    assert Rounded(0.9) == 0.9 by {
      assert (0.9 * 10000.0 + 0.5).Floor == 9000;
    }
    RoundedIsMonotone(0.9, RawScore(inputs));
    hide Rounded, IsCapped, RawScore;
  }

  lemma CeilingIsReached(m: nat, policy: Policy) returns (items: seq<Evidence>)
    requires ReachesCeiling(m, policy.targetIndependent)
    ensures IsHigh(items, policy) && IndependentCount(items) == m
  {
    var target := policy.targetIndependent;
    assert m >= 1 by {
      if m == 0 {
        Division(target, 2 * target);
      }
    }
    var n := m + policy.targetEvidence + policy.targetSample;
    items := Voices(n, m);
    hide DiversityUnits, IsCapped, IndependentCount, BuildInputs, ScoreOf;
    VoicesInputs(n, m, policy);
    VoicesCount(n, m);
    UnitsAreUnit(m, target);
    CappedIff(DiversityUnits(m, target), policy);
    FullSupportScores(BuildInputs(items, policy).value, policy);
  }

  /** For every policy and every number of independent groups: some evidence with exactly that many is high
      exactly when their rounded diversity comes up to two shares of the target. */
  lemma HighWithGroupsIff(m: nat, policy: Policy)
    ensures (exists items :: IsHigh(items, policy) && IndependentCount(items) == m)
       <==> ReachesCeiling(m, policy.targetIndependent)
  {
    hide IsHigh, ReachesCeiling, IndependentCount;
    if ReachesCeiling(m, policy.targetIndependent) {
      var items := CeilingIsReached(m, policy);
    }
    if items :| IsHigh(items, policy) && IndependentCount(items) == m {
      HighReachesCeiling(items, policy);
    }
  }

  // ---- One group, two groups, enough groups

  /** The one target where the rounded diversity of a single group reaches two shares of the target. */
  const BLIND_TARGET := 20000

  lemma FewGroupsReachIff(m: nat, target: int)
    requires target >= 1 && m <= 1
    ensures ReachesCeiling(m, target) <==> m == 1 && target == BLIND_TARGET
  {
    var q := (20000 * m + target) / (2 * target);
    Division(20000 * m + target, 2 * target);
    if m < target && q >= 1 {
      ProductsOrdered(1, q, 2 * target);
    }
  }

  lemma CountOfGroups(items: seq<Evidence>)
    ensures IndependentCount(items) >= 2 <==> HasTwoGroups(items)
  {
  }

  /** High means two distinct groups of every kind for exactly the policies whose independent target
      is not 20000. */
  lemma CeilingHoldsIff(policy: Policy)
    ensures (forall items :: IsHigh(items, policy) ==> HasTwoGroups(items))
       <==> policy.targetIndependent != BLIND_TARGET
  {
    hide IsHigh, HasTwoGroups, IndependentCount, ReachesCeiling;
    FewGroupsReachIff(1, policy.targetIndependent);
    if policy.targetIndependent == BLIND_TARGET {
      var items := CeilingIsReached(1, policy);
      CountOfGroups(items);
    } else {
      forall items | IsHigh(items, policy)
        ensures HasTwoGroups(items)
      {
        HighReachesCeiling(items, policy);
        CountOfGroups(items);
        if IndependentCount(items) <= 1 {
          FewGroupsReachIff(IndependentCount(items), policy.targetIndependent);
        }
      }
    }
  }

  /** Two groups reach the ceiling where 20000 divided by the target leaves nothing or rounds up. */
  lemma TwoGroupsReachIff(target: int)
    requires target >= 1
    ensures ReachesCeiling(2, target) <==> target >= 2 && (20000 % target == 0 || 2 * (20000 % target) >= target)
  {
    var d, r := 20000 / target, 20000 % target;
    if target > 2 {
      TwoGroupUnits(target, d, r);
      hide DiversityUnits;
      assert d * target + r == 20000;
      assert (d + 1) * target == d * target + target;
    }
  }

  lemma TwoGroupUnits(target: int, d: int, r: int)
    requires target > 2 && d == 20000 / target && r == 20000 % target
    ensures DiversityUnits(2, target) == if 2 * r < target then d else d + 1
  {
    assert d * target + r == 20000 && 0 <= r < target;
    assert 40000 + target == d * (2 * target) + (2 * r + target);
    QuotientIs(40000 + target, 2 * target, if 2 * r < target then d else d + 1);
  }

  lemma QuotientIs(a: int, b: int, q: int)
    requires b > 0 && q * b <= a < q * b + b
    ensures a / b == q
  {
    Division(a, b);
    if a / b < q {
      ProductsOrdered(a / b + 1, q, b);
    } else if a / b > q {
      ProductsOrdered(q + 1, a / b, b);
    }
  }

  /** Two groups can be enough for exactly these targets; rounding down keeps them below all others. */
  lemma TwoGroupsCanBeHighIff(policy: Policy)
    ensures var t := policy.targetIndependent;
            (exists items :: IsHigh(items, policy) && IndependentCount(items) == 2)
            <==> t >= 2 && (20000 % t == 0 || 2 * (20000 % t) >= t)
  {
    HighWithGroupsIff(2, policy);
    TwoGroupsReachIff(policy.targetIndependent);
  }

  /** Some evidence is high for exactly the policies whose independent target is not one. */
  lemma HighIsPossibleIff(policy: Policy)
    ensures (exists items :: IsHigh(items, policy)) <==> policy.targetIndependent != 1
  {
    hide IsHigh, IndependentCount;
    var t := policy.targetIndependent;
    if t != 1 {
      assert ReachesCeiling(t, t);
      var items := CeilingIsReached(t, policy);
    }
    if items :| IsHigh(items, policy) {
      HighReachesCeiling(items, policy);
      UnitsAreUnit(IndependentCount(items), t);
    }
  }
}
