/** The company catalog: ten constant records, and the invariants of that data the matcher's
    bounds rely on (weights sum to 1, thresholds on the 0-5 scale, reject thresholds below the
    minimums, non-empty reject messages). */
module Catalog {
  import opened Types
  import opened Matching

  function Req(minDsa: real, minFundamentals: real, minProjects: real, minExperience: real,
               dsa: real, fundamentals: real, projects: real, experience: real): Requirements
  {
    Requirements(minDsa, minFundamentals, minProjects, minExperience,
                 Weights(dsa, fundamentals, projects, experience))
  }

  function Below(field: Skill, value: real, message: string): RejectRule {
    RejectRule(field, Lt, value, message)
  }

  const Google := Company("google", "Google",
    Req(4.5, 4.0, 3.5, 2.0, 0.4, 0.25, 0.2, 0.15),
    [Below(DsaSkill, 4.0, "DSA skills below Google threshold"),
     Below(FundamentalsSkill, 3.5, "CS fundamentals need improvement")])

  const Microsoft := Company("microsoft", "Microsoft",
    Req(4.0, 4.0, 3.0, 1.5, 0.35, 0.3, 0.2, 0.15),
    [Below(DsaSkill, 3.5, "DSA below Microsoft threshold"),
     Below(FundamentalsSkill, 3.5, "Fundamentals need strengthening")])

  const Amazon := Company("amazon", "Amazon",
    Req(4.0, 3.5, 3.5, 2.0, 0.35, 0.2, 0.25, 0.2),
    [Below(DsaSkill, 3.5, "DSA skills need improvement"),
     Below(ProjectsSkill, 3.0, "More impactful projects needed")])

  const Meta := Company("meta", "Meta",
    Req(4.5, 3.5, 3.0, 1.5, 0.45, 0.2, 0.2, 0.15),
    [Below(DsaSkill, 4.0, "Meta requires very strong DSA")])

  const Flipkart := Company("flipkart", "Flipkart",
    Req(3.5, 3.5, 3.0, 1.5, 0.35, 0.25, 0.25, 0.15),
    [Below(DsaSkill, 3.0, "DSA needs improvement for Flipkart")])

  const Atlassian := Company("atlassian", "Atlassian",
    Req(3.5, 4.0, 4.0, 2.0, 0.25, 0.25, 0.3, 0.2),
    [Below(ProjectsSkill, 3.0, "Need stronger project portfolio")])

  const Razorpay := Company("razorpay", "Razorpay",
    Req(3.0, 3.5, 3.5, 1.5, 0.3, 0.25, 0.3, 0.15),
    [Below(DsaSkill, 2.5, "DSA fundamentals needed")])

  const Tcs := Company("tcs", "TCS Digital",
    Req(2.5, 3.0, 2.0, 0.5, 0.3, 0.35, 0.2, 0.15),
    [Below(FundamentalsSkill, 2.0, "Basic CS knowledge required")])

  const Infosys := Company("infosys", "Infosys",
    Req(2.0, 2.5, 2.0, 0.0, 0.25, 0.35, 0.25, 0.15),
    [])

  const Wipro := Company("wipro", "Wipro",
    Req(2.0, 2.5, 1.5, 0.0, 0.25, 0.35, 0.25, 0.15),
    [])

  /** The catalog, in listing order (the order ties keep in the ranking). */
  const Companies: seq<Company> :=
    [Google, Microsoft, Amazon, Meta, Flipkart, Atlassian, Razorpay, Tcs, Infosys, Wipro]

  /** Every company minimum lies on the 0-5 scale. */
  predicate MinimumsInRange(r: Requirements) {
    && 0.0 <= r.minDsa <= 5.0
    && 0.0 <= r.minFundamentals <= 5.0
    && 0.0 <= r.minProjects <= 5.0
    && 0.0 <= r.minExperience <= 5.0
  }

  /** A reject rule of the catalog's shape: "less than" on DSA, fundamentals or projects, with
      a message, at a threshold strictly below the company's minimum for that dimension. */
  predicate RuleShaped(c: Company, rule: RejectRule) {
    && rule.op == Lt
    && rule.field != ExperienceSkill
    && rule.message != ""
    && rule.value < MinFor(c.requirements, rule.field)
  }

  /** Every company's fit weights are non-negative and sum to exactly 1. */
  lemma CatalogWeightsValid()
    ensures |Companies| == 10
    ensures forall i :: 0 <= i < |Companies| ==> WeightsValid(Companies[i].requirements.weights)
  {
  }

  /** Every company's minimums lie in [0, 5]. */
  lemma CatalogMinimumsInRange()
    ensures forall i :: 0 <= i < |Companies| ==> MinimumsInRange(Companies[i].requirements)
  {
  }

  /** Every reject rule is a "less than" test on DSA, fundamentals or projects with a non-empty
      message, and its threshold is strictly below the same company's minimum. */
  lemma CatalogRulesShaped()
    ensures forall i, k :: 0 <= i < |Companies| && 0 <= k < |Companies[i].rejectRules| ==>
              RuleShaped(Companies[i], Companies[i].rejectRules[k])
  {
  }

  /** Company ids are pairwise distinct; Infosys and Wipro have no reject rules. */
  lemma CatalogIdsDistinct()
    ensures forall i, j :: 0 <= i < j < |Companies| ==> Companies[i].id != Companies[j].id
    ensures Companies[8].id == "infosys" && Companies[8].rejectRules == []
    ensures Companies[9].id == "wipro" && Companies[9].rejectRules == []
  {
  }

  /** A rule of the catalog's shape that fires always coincides with a gap in its dimension:
      the score is below the threshold, hence below the minimum. */
  lemma FiredRuleMeansGap(c: Company, s: SkillScores, k: int)
    requires 0 <= k < |c.rejectRules| && RuleShaped(c, c.rejectRules[k])
    requires Fires(c.rejectRules[k], s)
    ensures HasGapFor(CalculateGaps(c, s), c.rejectRules[k].field)
  {
    var rule := c.rejectRules[k];
    assert SkillValue(s, rule.field) < rule.value;
  }

  /** For a catalog company, any firing rule both rejects the candidate and shows up as a gap. */
  lemma CatalogFiredRule(i: int, k: int, s: SkillScores)
    requires 0 <= i < |Companies| && 0 <= k < |Companies[i].rejectRules|
    requires Fires(Companies[i].rejectRules[k], s)
    ensures MatchUserToCompany(Companies[i], s).status == Avoid
    ensures HasGapFor(MatchUserToCompany(Companies[i], s).gaps, Companies[i].rejectRules[k].field)
  {
    CatalogRulesShaped();
    var c := Companies[i];
    FiredRuleMeansGap(c, s, k);
    FiredRuleMeansAvoid(c, s, k);
  }

  /** For a catalog company and scores in range the fit percentage lies in [0, 100]. */
  lemma CatalogFitInRange(i: int, s: SkillScores)
    requires 0 <= i < |Companies| && DimensionsInRange(s)
    ensures 0 <= MatchUserToCompany(Companies[i], s).fitScore <= 100
  {
    CatalogWeightsValid();
  }

  /** A DSA score of 3.5 fires Google's first rule, so Google is to be avoided whatever the
      other scores and the fit. */
  lemma GoogleDsaExample(s: SkillScores)
    requires s.dsa == 3.5
    ensures CheckRejectRules(Google, s) == Some("DSA skills below Google threshold")
    ensures MatchUserToCompany(Google, s).status == Avoid
  {
    assert Fires(Google.rejectRules[0], s);
  }
}
