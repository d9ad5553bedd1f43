/** The matcher: compares skill scores with one company's requirements (reject rules, gaps,
    fit percentage, preparation estimate, status) and ranks the whole catalog by fit. */
module Matching {
  import opened Types
  import opened JsMath
  import opened StableSort

  /** The four dimension scores lie in [0, 5]. */
  predicate DimensionsInRange(s: SkillScores) {
    && 0.0 <= s.dsa <= 5.0
    && 0.0 <= s.fundamentals.average <= 5.0
    && 0.0 <= s.projects <= 5.0
    && 0.0 <= s.experience <= 5.0
  }

  // ---------------------------------------------------------------- reject rules

  predicate Holds(op: Operator, value: real, threshold: real) {
    match op
    case Lt => value < threshold
    case Gt => value > threshold
    case Eq => value == threshold
    case Ne => value != threshold
  }

  /** A rule fires when the scored field compares to the threshold as its operator says. */
  predicate Fires(rule: RejectRule, s: SkillScores) {
    Holds(rule.op, SkillValue(s, rule.field), rule.value)
  }

  /** The message of the first rule that fires, if any. */
  function FirstFiring(rules: seq<RejectRule>, s: SkillScores): (r: Option<string>)
    ensures r.None? <==> forall i :: 0 <= i < |rules| ==> !Fires(rules[i], s)
    ensures r.Some? ==> exists i :: 0 <= i < |rules| && Fires(rules[i], s) && r.value == rules[i].message
                                    && forall j :: 0 <= j < i ==> !Fires(rules[j], s)
  {
    if rules == [] then None
    else if Fires(rules[0], s) then Some(rules[0].message)
    else
      var rest := FirstFiring(rules[1..], s);
      assert forall i :: 1 <= i < |rules| ==> rules[i] == rules[1..][i - 1];
      assert rest.Some? ==> exists i :: 0 <= i < |rules| && Fires(rules[i], s) && rest.value == rules[i].message
                                        && forall j :: 0 <= j < i ==> !Fires(rules[j], s) by {
        if rest.Some? {
          var k :| 0 <= k < |rules[1..]| && Fires(rules[1..][k], s) && rest.value == rules[1..][k].message
                   && forall j :: 0 <= j < k ==> !Fires(rules[1..][j], s);
          assert forall j :: 0 <= j < k + 1 ==> !Fires(rules[j], s) by {
            forall j | 0 <= j < k + 1 ensures !Fires(rules[j], s) {
              if j > 0 { assert rules[j] == rules[1..][j - 1]; }
            }
          }
        }
      }
      rest
  }

  /** The reject reason of a company: the first of its rules that fires, in catalog order. */
  function CheckRejectRules(c: Company, s: SkillScores): (r: Option<string>)
    ensures r.None? <==> forall i :: 0 <= i < |c.rejectRules| ==> !Fires(c.rejectRules[i], s)
    ensures r.Some? ==> exists i :: 0 <= i < |c.rejectRules| && Fires(c.rejectRules[i], s)
                                    && r.value == c.rejectRules[i].message
                                    && forall j :: 0 <= j < i ==> !Fires(c.rejectRules[j], s)
  {
    FirstFiring(c.rejectRules, s)
  }

  /** The status decision tests the reason for truthiness: an empty message does not reject. */
  predicate Rejected(reason: Option<string>) {
    reason.Some? && reason.value != ""
  }

  // ---------------------------------------------------------------- fit score

  /** Company weights that are non-negative and sum to 1. */
  predicate WeightsValid(w: Weights) {
    && 0.0 <= w.dsa && 0.0 <= w.fundamentals && 0.0 <= w.projects && 0.0 <= w.experience
    && w.dsa + w.fundamentals + w.projects + w.experience == 1.0
  }

  /** One dimension's share of the fit: its score scaled from [0, 5] to [0, 1], times the
      company's weight for it. */
  function Weighted(x: real, w: real): real {
    (x / 5.0) * w
  }

  function FitRaw(w: Weights, s: SkillScores): real {
    Weighted(s.dsa, w.dsa) + Weighted(s.fundamentals.average, w.fundamentals)
    + Weighted(s.projects, w.projects) + Weighted(s.experience, w.experience)
  }

  /** A score in [0, 5] scaled to [0, 1] and weighted contributes between 0 and its weight. */
  lemma WeightedTerm(x: real, w: real)
    requires 0.0 <= x <= 5.0 && 0.0 <= w
    ensures 0.0 <= Weighted(x, w) <= w
  {
    var f := x / 5.0;
    assert 0.0 <= f <= 1.0;
    assert w - f * w == (1.0 - f) * w;
  }

  /** A higher score never contributes less under a non-negative weight. */
  lemma MonotoneTerm(x: real, y: real, w: real)
    requires x <= y && 0.0 <= w
    ensures Weighted(x, w) <= Weighted(y, w)
  {
    assert (y / 5.0) * w - (x / 5.0) * w == ((y - x) / 5.0) * w;
  }

  /** With valid weights and scores in range the weighted share lies in [0, 1]. */
  lemma FitRawBounds(w: Weights, s: SkillScores)
    requires WeightsValid(w) && DimensionsInRange(s)
    ensures 0.0 <= FitRaw(w, s) <= 1.0
  {
    WeightedTerm(s.dsa, w.dsa);
    WeightedTerm(s.fundamentals.average, w.fundamentals);
    WeightedTerm(s.projects, w.projects);
    WeightedTerm(s.experience, w.experience);
  }

  /** Fit percentage: the company-weighted share of the maximal scores, rounded to an integer.
      It lies in [0, 100] whenever the weights are valid and the scores are in range. */
  function FitScore(c: Company, s: SkillScores): (r: int)
    ensures FitRaw(c.requirements.weights, s) * 100.0 - 0.5 < r as real <= FitRaw(c.requirements.weights, s) * 100.0 + 0.5
    ensures WeightsValid(c.requirements.weights) && DimensionsInRange(s) ==> 0 <= r <= 100
  {
    var w := c.requirements.weights;
    var x := FitRaw(w, s) * 100.0;
    assert WeightsValid(w) && DimensionsInRange(s) ==> 0.0 <= x <= 100.0 by {
      if WeightsValid(w) && DimensionsInRange(s) {
        FitRawBounds(w, s);
      }
    }
    Round(x)
  }

  /** Raising any score never lowers the fit percentage (weights are non-negative). */
  lemma FitScoreMonotone(c: Company, s: SkillScores, t: SkillScores)
    requires WeightsValid(c.requirements.weights)
    requires s.dsa <= t.dsa && s.fundamentals.average <= t.fundamentals.average
    requires s.projects <= t.projects && s.experience <= t.experience
    ensures FitScore(c, s) <= FitScore(c, t)
  {
    var w := c.requirements.weights;
    MonotoneTerm(s.dsa, t.dsa, w.dsa);
    MonotoneTerm(s.fundamentals.average, t.fundamentals.average, w.fundamentals);
    MonotoneTerm(s.projects, t.projects, w.projects);
    MonotoneTerm(s.experience, t.experience, w.experience);
    var a, b := FitRaw(w, s), FitRaw(w, t);
    assert a <= b;
    FloorMonotone(a * 100.0 + 0.5, b * 100.0 + 0.5);
  }

  // ---------------------------------------------------------------- gaps

  /** Priority of a gap from the company's weight for its dimension. */
  function PriorityFor(weight: real): (p: Priority)
    ensures p == High <==> weight >= 0.3
    ensures p == Low <==> weight < 0.2
  {
    if weight >= 0.3 then High else if weight >= 0.2 then Medium else Low
  }

  /** A heavier weight never yields a lower priority. */
  lemma PriorityMonotone(w1: real, w2: real)
    requires w1 <= w2
    ensures PriorityRank(PriorityFor(w2)) <= PriorityRank(PriorityFor(w1))
  {
  }

  /** What a gap of a company records about a dimension of the candidate. */
  predicate GapDescribes(g: SkillGap, c: Company, s: SkillScores) {
    && SkillValue(s, g.skill) < MinFor(c.requirements, g.skill)
    && g.required == MinFor(c.requirements, g.skill)
    && g.current == Round1(SkillValue(s, g.skill))
    && g.gap == Round1(g.required - SkillValue(s, g.skill))
    && g.gap >= 0.0
    && g.priority == PriorityFor(WeightFor(c.requirements.weights, g.skill))
  }

  /** Emission order of the dimensions. */
  function SkillIndex(d: Skill): int {
    match d
    case DsaSkill => 0
    case FundamentalsSkill => 1
    case ProjectsSkill => 2
    case ExperienceSkill => 3
  }

  function GapRank(g: SkillGap): real {
    PriorityRank(g.priority)
  }

  function GapSkillIndex(g: SkillGap): int {
    SkillIndex(g.skill)
  }

  /** The gap for one dimension, if the current score is below the company minimum. */
  function CheckGap(d: Skill, c: Company, s: SkillScores): (r: seq<SkillGap>)
    ensures |r| <= 1
    ensures r != [] <==> SkillValue(s, d) < MinFor(c.requirements, d)
    ensures r != [] ==> r[0].skill == d && GapDescribes(r[0], c, s)
  {
    var current, required := SkillValue(s, d), MinFor(c.requirements, d);
    if current < required then
      Round1Monotone(0.0, required - current);
      Round1OfTenths(0);
      [SkillGap(d, Round1(current), required, Round1(required - current),
                PriorityFor(WeightFor(c.requirements.weights, d)))]
    else []
  }

  /** Some gap of the list concerns dimension `d`. */
  predicate HasGapFor(gaps: seq<SkillGap>, d: Skill) {
    exists g :: g in gaps && g.skill == d
  }

  /** The gaps of the dimensions `ds`, checked in the order listed. */
  function GapsFor(ds: seq<Skill>, c: Company, s: SkillScores): (r: seq<SkillGap>)
    ensures |r| <= |ds|
    ensures forall g :: g in r ==> g.skill in ds && GapDescribes(g, c, s)
    ensures forall d :: d in ds ==> (HasGapFor(r, d) <==> SkillValue(s, d) < MinFor(c.requirements, d))
  {
    if ds == [] then []
    else
      var head, rest := CheckGap(ds[0], c, s), GapsFor(ds[1..], c, s);
      assert forall d :: d in ds <==> d == ds[0] || d in ds[1..];
      assert forall g :: g in head + rest <==> g in head || g in rest;
      head + rest
  }

  /** The gaps' dimensions strictly increase in emission order. */
  predicate InEmissionOrder(r: seq<SkillGap>) {
    forall i, j :: 0 <= i < j < |r| ==> SkillIndex(r[i].skill) < SkillIndex(r[j].skill)
  }

  /** Checking dimensions in increasing emission order yields gaps in that order. */
  lemma {:induction false} GapsForOrdered(ds: seq<Skill>, c: Company, s: SkillScores)
    requires forall i, j :: 0 <= i < j < |ds| ==> SkillIndex(ds[i]) < SkillIndex(ds[j])
    ensures InEmissionOrder(GapsFor(ds, c, s))
  {
    if ds != [] {
      var tail := ds[1..];
      var head, rest := CheckGap(ds[0], c, s), GapsFor(tail, c, s);
      forall i, j | 0 <= i < j < |tail| ensures SkillIndex(tail[i]) < SkillIndex(tail[j]) {
        assert tail[i] == ds[i + 1] && tail[j] == ds[j + 1];
      }
      GapsForOrdered(tail, c, s);
      forall g | g in rest ensures SkillIndex(ds[0]) < SkillIndex(g.skill) {
        var k :| 0 <= k < |tail| && tail[k] == g.skill;
        assert ds[k + 1] == g.skill;
      }
      ConcatOrdered(head, rest, ds[0]);
    }
  }

  /** A gap list for dimension `d` followed by an ordered list of gaps of later dimensions is
      ordered. */
  lemma ConcatOrdered(head: seq<SkillGap>, rest: seq<SkillGap>, d: Skill)
    requires |head| <= 1 && (head != [] ==> head[0].skill == d)
    requires forall g :: g in rest ==> SkillIndex(d) < SkillIndex(g.skill)
    requires InEmissionOrder(rest)
    ensures InEmissionOrder(head + rest)
  {
    var r := head + rest;
    forall i, j | 0 <= i < j < |r| ensures SkillIndex(r[i].skill) < SkillIndex(r[j].skill) {
      assert r[j] == rest[j - |head|];
      if i >= |head| {
        assert r[i] == rest[i - |head|];
      } else {
        assert r[j] in rest;
      }
    }
  }

  /** The dimensions in emission order: DSA, CS Fundamentals, Projects, Experience. */
  const EmissionOrder: seq<Skill> := [DsaSkill, FundamentalsSkill, ProjectsSkill, ExperienceSkill]

  /** Every dimension is checked. */
  lemma EmissionOrderComplete()
    ensures forall d: Skill :: d in EmissionOrder
  {
    forall d: Skill ensures d in EmissionOrder {
      match d
      case DsaSkill => assert EmissionOrder[0] == d;
      case FundamentalsSkill => assert EmissionOrder[1] == d;
      case ProjectsSkill => assert EmissionOrder[2] == d;
      case ExperienceSkill => assert EmissionOrder[3] == d;
    }
  }

  /** The gaps in emission order; a dimension has a gap exactly when its score is below the
      company minimum. */
  function EmittedGaps(c: Company, s: SkillScores): (r: seq<SkillGap>)
    ensures forall g :: g in r ==> GapDescribes(g, c, s)
    ensures forall d :: HasGapFor(r, d) <==> SkillValue(s, d) < MinFor(c.requirements, d)
    ensures InEmissionOrder(r)
    ensures |r| <= 4
  {
    EmissionOrderComplete();
    assert forall i :: 0 <= i < |EmissionOrder| ==> SkillIndex(EmissionOrder[i]) == i;
    GapsForOrdered(EmissionOrder, c, s);
    GapsFor(EmissionOrder, c, s)
  }

  /** The gaps of a company, stable-sorted high, medium, low. Each dimension below its
      minimum yields exactly one gap; within a priority the emission order is kept. */
  function CalculateGaps(c: Company, s: SkillScores): (r: seq<SkillGap>)
    ensures |r| <= 4
    ensures forall g :: g in r ==> GapDescribes(g, c, s)
    ensures forall d :: HasGapFor(r, d) <==> SkillValue(s, d) < MinFor(c.requirements, d)
    ensures Prioritized(r)
    ensures DistinctSkills(r)
  {
    var e := EmittedGaps(c, s);
    var r := Sort(e, GapRank);
    SortedGapsMembers(e, r);
    SortedGapsOrder(e, r);
    r
  }

  /** Sorting keeps the gaps: the same elements, so the same dimensions. */
  lemma SortedGapsMembers(e: seq<SkillGap>, r: seq<SkillGap>)
    requires r == Sort(e, GapRank)
    ensures forall g :: g in r <==> g in e
    ensures forall d :: HasGapFor(r, d) <==> HasGapFor(e, d)
  {
    assert forall g :: g in r <==> g in multiset(r);
    assert forall g :: g in e <==> g in multiset(e);
  }

  /** Gaps ordered by priority (high first), and by emission order within a priority. */
  predicate Prioritized(r: seq<SkillGap>) {
    forall i, j :: 0 <= i < j < |r| ==>
      PriorityRank(r[i].priority) < PriorityRank(r[j].priority)
      || (r[i].priority == r[j].priority && SkillIndex(r[i].skill) < SkillIndex(r[j].skill))
  }

  /** No two gaps concern the same dimension. */
  predicate DistinctSkills(r: seq<SkillGap>) {
    forall i, j :: 0 <= i < j < |r| ==> r[i].skill != r[j].skill
  }

  /** Sorting emitted gaps by priority orders them by priority, then by emission order. */
  lemma SortedGapsOrder(e: seq<SkillGap>, r: seq<SkillGap>)
    requires r == Sort(e, GapRank)
    requires InEmissionOrder(e)
    ensures Prioritized(r) && DistinctSkills(r)
  {
    assert TiesOrderedBy(e, GapRank, GapSkillIndex) by {
      forall i, j | 0 <= i < j < |e| && GapRank(e[i]) == GapRank(e[j])
        ensures GapSkillIndex(e[i]) < GapSkillIndex(e[j])
      {
      }
    }
    SortKeepsTieOrder(e, GapRank, GapSkillIndex);
    TiesGivePriorityOrder(r);
    PermutationKeepsSkillsDistinct(e, r);
  }

  /** Sorted by priority with ties in emission order is the lexicographic order. */
  lemma TiesGivePriorityOrder(r: seq<SkillGap>)
    requires SortedBy(r, GapRank) && TiesOrderedBy(r, GapRank, GapSkillIndex)
    ensures Prioritized(r)
  {
    forall i, j | 0 <= i < j < |r|
      ensures PriorityRank(r[i].priority) < PriorityRank(r[j].priority)
              || (r[i].priority == r[j].priority && SkillIndex(r[i].skill) < SkillIndex(r[j].skill))
    {
      assert GapRank(r[i]) <= GapRank(r[j]);
      if GapRank(r[i]) == GapRank(r[j]) {
        assert GapSkillIndex(r[i]) < GapSkillIndex(r[j]);
      }
    }
  }

  /** In emission order a gap is determined by its dimension. */
  lemma SkillDeterminesGap(e: seq<SkillGap>)
    requires InEmissionOrder(e)
    ensures forall x, y :: x in e && y in e && x.skill == y.skill ==> x == y
  {
    forall x, y | x in e && y in e && x.skill == y.skill ensures x == y {
      var k :| 0 <= k < |e| && e[k] == x;
      var l :| 0 <= l < |e| && e[l] == y;
    }
  }

  /** A prioritized rearrangement of gaps with distinct dimensions has distinct dimensions:
      two entries of one dimension would be the same gap, which cannot precede itself. */
  lemma PermutationKeepsSkillsDistinct(e: seq<SkillGap>, r: seq<SkillGap>)
    requires InEmissionOrder(e) && multiset(r) == multiset(e) && Prioritized(r)
    ensures DistinctSkills(r)
  {
    SkillDeterminesGap(e);
    forall i, j | 0 <= i < j < |r| ensures r[i].skill != r[j].skill {
      assert r[i] in multiset(e) && r[j] in multiset(e);
    }
  }

  // ---------------------------------------------------------------- preparation time

  /** Weeks per point of gap: DSA 4, CS Fundamentals 2, Projects 3, anything else 1. */
  function WeeksFactor(d: Skill): real {
    match d
    case DsaSkill => 4.0
    case FundamentalsSkill => 2.0
    case ProjectsSkill => 3.0
    case ExperienceSkill => 1.0
  }

  /** Sum over the gaps of each gap times its dimension's weeks factor. */
  function WeightedGapSum(gaps: seq<SkillGap>): real {
    if gaps == [] then 0.0 else gaps[0].gap * WeeksFactor(gaps[0].skill) + WeightedGapSum(gaps[1..])
  }

  /** Preparation estimate: the sum over gaps of the factor times the gap, each rounded up to
      whole weeks. It covers the exact weighted sum and exceeds it by less than one week per
      gap; for non-negative gaps it is non-negative and 0 exactly when every gap is 0. */
  function PrepTime(gaps: seq<SkillGap>): (r: int)
    ensures gaps == [] ==> r == 0
    ensures r as real >= WeightedGapSum(gaps)
    ensures gaps != [] ==> (r as real) < WeightedGapSum(gaps) + |gaps| as real
    ensures (forall i :: 0 <= i < |gaps| ==> gaps[i].gap >= 0.0) ==>
              r >= 0 && (r == 0 <==> forall i :: 0 <= i < |gaps| ==> gaps[i].gap == 0.0)
  {
    if gaps == [] then 0
    else
      var g := gaps[0];
      var rest := PrepTime(gaps[1..]);
      assert forall i :: 1 <= i < |gaps| ==> gaps[i] == gaps[1..][i - 1];
      var c := Ceil(g.gap * WeeksFactor(g.skill));
      assert WeightedGapSum(gaps) == g.gap * WeeksFactor(g.skill) + WeightedGapSum(gaps[1..]);
      c + rest
  }

  /** The estimate is additive over the gap list: each gap contributes its own rounded-up
      weeks. */
  lemma {:induction false} PrepTimeAppend(a: seq<SkillGap>, b: seq<SkillGap>)
    ensures PrepTime(a + b) == PrepTime(a) + PrepTime(b)
  {
    if a == [] {
      assert a + b == b;
    } else {
      var ab := a + b;
      assert ab[0] == a[0] && ab[1..] == a[1..] + b;
      var c := Ceil(a[0].gap * WeeksFactor(a[0].skill));
      assert PrepTime(ab) == c + PrepTime(ab[1..]);
      assert PrepTime(a) == c + PrepTime(a[1..]);
      PrepTimeAppend(a[1..], b);
    }
  }

  /** One gap takes its factor-weighted size rounded up to whole weeks. */
  lemma PrepTimeSingle(g: SkillGap)
    ensures PrepTime([g]) == Ceil(g.gap * WeeksFactor(g.skill))
  {
    assert [g][1..] == [];
  }

  /** Rounding is per gap, not of the total: two gaps of 0.1 in DSA and the fundamentals take
      one week each, although their weighted sum is only 0.6. */
  lemma PrepTimeRoundsEachGap(p: Priority)
    ensures PrepTime([SkillGap(DsaSkill, 1.9, 2.0, 0.1, p), SkillGap(FundamentalsSkill, 1.9, 2.0, 0.1, p)]) == 2
  {
    var a, b := SkillGap(DsaSkill, 1.9, 2.0, 0.1, p), SkillGap(FundamentalsSkill, 1.9, 2.0, 0.1, p);
    PrepTimeAppend([a], [b]);
    PrepTimeSingle(a);
    PrepTimeSingle(b);
    assert [a] + [b] == [a, b];
  }

  // ---------------------------------------------------------------- one company, all companies

  /** Status decision, first match wins: a truthy reject reason or a fit below 50 means avoid;
      otherwise a fit of at least 75 with at most one gap means recommended; else prepare. */
  function DecideStatus(reason: Option<string>, fit: int, gapCount: nat): (st: Status)
    ensures st == Avoid <==> Rejected(reason) || fit < 50
    ensures st == Recommended <==> !Rejected(reason) && fit >= 75 && gapCount <= 1
  {
    if Rejected(reason) || fit < 50 then Avoid
    else if fit >= 75 && gapCount <= 1 then Recommended
    else Prepare
  }

  /** The match of one company. */
  function MatchUserToCompany(c: Company, s: SkillScores): (m: CompanyMatch)
    ensures m.company == c && m.gaps == CalculateGaps(c, s) && m.fitScore == FitScore(c, s)
    ensures m.status == Avoid <==> Rejected(CheckRejectRules(c, s)) || m.fitScore < 50
    ensures m.status == Recommended <==> !Rejected(CheckRejectRules(c, s)) && m.fitScore >= 75 && |m.gaps| <= 1
    ensures m.prepTime == PrepTime(m.gaps) && m.prepTime >= 0
  {
    var gaps := CalculateGaps(c, s);
    var fit := FitScore(c, s);
    assert forall i :: 0 <= i < |gaps| ==> gaps[i].gap >= 0.0 by {
      forall i | 0 <= i < |gaps| ensures gaps[i].gap >= 0.0 {
        assert gaps[i] in gaps;
      }
    }
    CompanyMatch(c, fit, DecideStatus(CheckRejectRules(c, s), fit, |gaps|), gaps, PrepTime(gaps))
  }

  /** A rule with a non-empty message that fires always means avoid, whatever the fit. */
  lemma FiredRuleMeansAvoid(c: Company, s: SkillScores, i: int)
    requires 0 <= i < |c.rejectRules| && Fires(c.rejectRules[i], s)
    requires forall j :: 0 <= j < |c.rejectRules| ==> c.rejectRules[j].message != ""
    ensures MatchUserToCompany(c, s).status == Avoid
  {
    var reason := CheckRejectRules(c, s);
    assert reason.Some?;
  }

  /** A recommended company has a fit of at least 75, at most one gap, and no rule with a
      non-empty message fires. */
  lemma RecommendedMeansStrongFit(c: Company, s: SkillScores)
    requires MatchUserToCompany(c, s).status == Recommended
    requires forall j :: 0 <= j < |c.rejectRules| ==> c.rejectRules[j].message != ""
    ensures FitScore(c, s) >= 75 && |CalculateGaps(c, s)| <= 1
    ensures forall j :: 0 <= j < |c.rejectRules| ==> !Fires(c.rejectRules[j], s)
  {
    var reason := CheckRejectRules(c, s);
    assert reason.Some? ==> Rejected(reason);
  }

  /** Sort key that orders matches by fit, descending. */
  function FitKey(m: CompanyMatch): real {
    -(m.fitScore as real)
  }

  /** The match of every company, in catalog order. */
  function MatchEach(cs: seq<Company>, s: SkillScores): (r: seq<CompanyMatch>)
    ensures |r| == |cs|
    ensures forall i :: 0 <= i < |cs| ==> r[i] == MatchUserToCompany(cs[i], s)
  {
    seq(|cs|, i requires 0 <= i < |cs| => MatchUserToCompany(cs[i], s))
  }

  /** All matches, stable-sorted by fit score descending: one match per company, the same
      multiset of matches, and fit never increases along the result. */
  function MatchAllCompanies(cs: seq<Company>, s: SkillScores): (r: seq<CompanyMatch>)
    ensures |r| == |cs|
    ensures multiset(r) == multiset(MatchEach(cs, s))
    ensures forall i, j :: 0 <= i < j < |r| ==> r[i].fitScore >= r[j].fitScore
  {
    var r := Sort(MatchEach(cs, s), FitKey);
    assert forall i, j :: 0 <= i < j < |r| ==> FitKey(r[i]) <= FitKey(r[j]);
    r
  }

  /** Ties keep catalog order: for every sort key (a negated fit score), the matches carrying
      it appear in the ranking in the same order as the companies they come from. */
  lemma MatchAllStable(cs: seq<Company>, s: SkillScores, k: real)
    ensures KeyFilter(MatchAllCompanies(cs, s), FitKey, k) == KeyFilter(MatchEach(cs, s), FitKey, k)
  {
    RankingIsSort(cs, s);
    SortStable(MatchEach(cs, s), FitKey, k);
  }

  /** The ranking is the stable sort of the per-company matches by descending fit. */
  lemma RankingIsSort(cs: seq<Company>, s: SkillScores)
    ensures MatchAllCompanies(cs, s) == Sort(MatchEach(cs, s), FitKey)
  {
  }

  /** Every company has exactly one match in the ranking. */
  lemma MatchAllCoversCatalog(cs: seq<Company>, s: SkillScores, i: int)
    requires 0 <= i < |cs|
    ensures MatchUserToCompany(cs[i], s) in MatchAllCompanies(cs, s)
  {
    var e := MatchEach(cs, s);
    assert e[i] in multiset(e);
  }

  /** Conversely, every match in the ranking is the match of one of the companies. */
  lemma MatchAllFromCatalog(cs: seq<Company>, s: SkillScores, i: int) returns (k: int)
    requires 0 <= i < |MatchAllCompanies(cs, s)|
    ensures 0 <= k < |cs| && MatchAllCompanies(cs, s)[i] == MatchUserToCompany(cs[k], s)
  {
    var e := MatchEach(cs, s);
    var r := MatchAllCompanies(cs, s);
    assert r[i] in multiset(r);
    assert r[i] in multiset(e);
    k :| 0 <= k < |e| && e[k] == r[i];
  }
}
