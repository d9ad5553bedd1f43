/** The scorer: turns an onboarding profile into skill scores on a 0-5 scale. */
module Scoring {
  import opened Types
  import opened JsMath

  /** The fixed level table; anything outside it contributes 0. */
  function LevelScore(l: Level): (r: real)
    ensures 0.0 <= r <= 5.0
    ensures l == Unrecognized || l == NoLevel <==> r == 0.0
  {
    match l
    case NoLevel => 0.0
    case Beginner => 1.0
    case Basic => 1.5
    case Intermediate => 2.5
    case Advanced => 4.0
    case Expert => 5.0
    case Unrecognized => 0.0
  }

  /** Step bonus for solved problems: thresholds 50, 150, 300 and 500. */
  function ProblemBonus(solved: int): (r: real)
    ensures 0.0 <= r <= 1.0
    ensures solved < 50 <==> r == 0.0
    ensures solved >= 500 <==> r == 1.0
  {
    if solved >= 500 then 1.0
    else if solved >= 300 then 0.75
    else if solved >= 150 then 0.5
    else if solved >= 50 then 0.25
    else 0.0
  }

  /** Solving more problems never lowers the bonus. */
  lemma ProblemBonusMonotone(a: int, b: int)
    requires a <= b
    ensures ProblemBonus(a) <= ProblemBonus(b)
  {
  }

  /** DSA score: the level's base plus the bonus, capped at 5. */
  function DsaScore(level: Level, solved: int): (r: real)
    ensures 0.0 <= r <= 5.0
    ensures r <= LevelScore(level) + ProblemBonus(solved)
    ensures r < 5.0 ==> r == LevelScore(level) + ProblemBonus(solved)
    ensures r == 5.0 <==> LevelScore(level) + ProblemBonus(solved) >= 5.0
  {
    Min(5.0, LevelScore(level) + ProblemBonus(solved))
  }

  /** The DSA score is monotone in the number of problems solved. */
  lemma DsaScoreMonotone(level: Level, a: int, b: int)
    requires a <= b
    ensures DsaScore(level, a) <= DsaScore(level, b)
  {
    ProblemBonusMonotone(a, b);
  }

  /** Fundamentals: the four levels through the same table, no bonus, and their plain mean. */
  function Fundamentals(os: Level, cn: Level, dbms: Level, oops: Level): (r: FundamentalsScore)
    ensures r.os == LevelScore(os) && r.cn == LevelScore(cn)
    ensures r.dbms == LevelScore(dbms) && r.oops == LevelScore(oops)
    ensures 4.0 * r.average == r.os + r.cn + r.dbms + r.oops
    ensures 0.0 <= r.average <= 5.0
  {
    var a, b, c, d := LevelScore(os), LevelScore(cn), LevelScore(dbms), LevelScore(oops);
    FundamentalsScore(a, b, c, d, (a + b + c + d) / 4.0)
  }

  function ComplexityBase(c: Complexity): real {
    match c
    case BasicProject => 1.0
    case IntermediateProject => 2.0
    case AdvancedProject => 3.0
  }

  /** One project's score: complexity base plus the stack, deployment and repository bonuses. */
  function ProjectScore(p: Project): (r: real)
    ensures 1.0 <= r <= 4.25
  {
    ComplexityBase(p.complexity)
    + (if |p.technologies| >= 4 then 0.5 else 0.0)
    + (if p.hasDeployment then 0.5 else 0.0)
    + (if p.hasGithub then 0.25 else 0.0)
  }

  /** A bare basic project scores 1, and each feature adds a fixed amount whatever the rest of
      the project: deployment 0.5, a repository 0.25, a stack of four or more technologies 0.5
      (a smaller stack adds nothing); intermediate complexity is worth one point more than
      basic and advanced two. */
  lemma ProjectBonuses(p: Project)
    ensures ProjectScore(p.(technologies := [], complexity := BasicProject, hasDeployment := false,
                            hasGithub := false)) == 1.0
    ensures ProjectScore(p.(hasDeployment := true)) == ProjectScore(p.(hasDeployment := false)) + 0.5
    ensures ProjectScore(p.(hasGithub := true)) == ProjectScore(p.(hasGithub := false)) + 0.25
    ensures |p.technologies| >= 4 ==> ProjectScore(p) == ProjectScore(p.(technologies := [])) + 0.5
    ensures |p.technologies| < 4 ==> ProjectScore(p) == ProjectScore(p.(technologies := []))
    ensures ProjectScore(p.(complexity := IntermediateProject)) == ProjectScore(p.(complexity := BasicProject)) + 1.0
    ensures ProjectScore(p.(complexity := AdvancedProject)) == ProjectScore(p.(complexity := BasicProject)) + 2.0
  {
  }

  /** Sum of the per-project scores. */
  function ProjectsTotal(ps: seq<Project>): (r: real)
    ensures |ps| as real <= r <= 4.25 * |ps| as real
  {
    if ps == [] then 0.0 else ProjectScore(ps[0]) + ProjectsTotal(ps[1..])
  }

  /** Projects score: the mean project score, capped at 5; an empty list scores 0. The cap
      never binds, since every project scores at most 4.25. */
  function ProjectsScore(ps: seq<Project>): (r: real)
    ensures ps == [] ==> r == 0.0
    ensures ps != [] ==> 1.0 <= r <= 4.25 && r == ProjectsTotal(ps) / |ps| as real
    ensures 0.0 <= r <= 5.0
  {
    if ps == [] then 0.0
    else
      CappedMean(ProjectsTotal(ps), |ps|)
  }

  /** `Math.min(5, total / n)` for a total of n per-project scores; the cap never binds. */
  function CappedMean(total: real, n: nat): (r: real)
    requires n > 0 && n as real <= total <= 4.25 * n as real
    ensures 1.0 <= r <= 4.25 && r == total / n as real
  {
    MeanBounds(total, n as real);
    Min(5.0, total / n as real)
  }

  /** A total between n and 4.25 n has a mean between 1 and 4.25. */
  lemma MeanBounds(total: real, n: real)
    requires n > 0.0 && n <= total <= 4.25 * n
    ensures 1.0 <= total / n <= 4.25
    ensures (total / n) * n == total
  {
    var m := total / n;
    assert m * n == total;
    assert (m - 1.0) * n == total - n;
    assert (4.25 - m) * n == 4.25 * n - total;
    SignOfProduct(m - 1.0, n);
    SignOfProduct(4.25 - m, n);
  }

  /** A product with a positive factor is non-negative only if the other factor is. */
  lemma SignOfProduct(a: real, b: real)
    requires b > 0.0 && a * b >= 0.0
    ensures a >= 0.0
  {
  }

  /** Sum of the experience durations, in months. */
  function TotalMonths(es: seq<Experience>): (r: real)
    ensures (forall i :: 0 <= i < |es| ==> es[i].duration >= 0.0) ==> r >= 0.0
  {
    if es == [] then 0.0 else es[0].duration + TotalMonths(es[1..])
  }

  function TypeFactor(t: ExperienceType): real {
    match t
    case Fulltime => 1.5
    case Internship => 1.2
    case Freelance => 1.0
  }

  /** The quality multiplier: the best factor among the experience types present, starting
      from 1. */
  function QualityMultiplier(es: seq<Experience>): (r: real)
    ensures r == 1.0 || r == 1.2 || r == 1.5
    ensures forall i :: 0 <= i < |es| ==> TypeFactor(es[i].kind) <= r
    ensures r == 1.5 <==> exists i :: 0 <= i < |es| && es[i].kind == Fulltime
    ensures r == 1.2 <==> (exists i :: 0 <= i < |es| && es[i].kind == Internship)
                          && (forall i :: 0 <= i < |es| ==> es[i].kind != Fulltime)
  {
    if es == [] then 1.0
    else
      var rest := QualityMultiplier(es[1..]);
      assert forall i :: 1 <= i < |es| ==> es[i] == es[1..][i - 1];
      Max(rest, TypeFactor(es[0].kind))
  }

  /** The uncapped, unrounded experience score. */
  function RawExperience(es: seq<Experience>): real {
    TotalMonths(es) / 24.0 * 5.0 * QualityMultiplier(es)
  }

  /** Experience score: months over 24 times 5 times the multiplier, capped at 5 and rounded to
      one decimal; an empty list scores 0. */
  function ExperienceScore(es: seq<Experience>): (r: real)
    ensures es == [] ==> r == 0.0
    ensures r <= 5.0
    ensures (forall i :: 0 <= i < |es| ==> es[i].duration >= 0.0) ==> 0.0 <= r
    ensures es != [] ==> Min(5.0, RawExperience(es)) - 0.05 < r <= Min(5.0, RawExperience(es)) + 0.05
    ensures (r * 10.0).Floor as real == r * 10.0
  {
    if es == [] then 0.0
    else
      var capped := Min(5.0, RawExperience(es));
      CappedExperienceBounds(es);
      Round1(capped)
  }

  /** The capped raw score is at most 5, and not negative when no duration is. */
  lemma CappedExperienceBounds(es: seq<Experience>)
    ensures Round1(Min(5.0, RawExperience(es))) <= 5.0
    ensures TotalMonths(es) >= 0.0 ==> 0.0 <= Round1(Min(5.0, RawExperience(es)))
  {
    var capped := Min(5.0, RawExperience(es));
    var m := QualityMultiplier(es);
    if TotalMonths(es) >= 0.0 {
      assert RawExperience(es) >= 0.0 by {
        assert m == 1.0 || m == 1.2 || m == 1.5;
      }
      Round1InScoreRange(capped);
    } else {
      Round1Monotone(capped, 5.0);
      Round1OfTenths(50);
    }
  }

  /** Two years of experience of any kind already saturate the experience score. */
  lemma ExperienceSaturates(es: seq<Experience>)
    requires TotalMonths(es) >= 24.0
    ensures ExperienceScore(es) == 5.0
  {
    var m := QualityMultiplier(es);
    assert es != [];
    assert RawExperience(es) >= 5.0 by {
      assert TotalMonths(es) / 24.0 >= 1.0;
      assert m == 1.0 || m == 1.2 || m == 1.5;
    }
    Round1OfTenths(50);
  }

  /** The global overall weights; they sum to 1. */
  const OverallDsaWeight: real := 0.35
  const OverallFundamentalsWeight: real := 0.25
  const OverallProjectsWeight: real := 0.25
  const OverallExperienceWeight: real := 0.15

  function OverallRaw(dsa: real, f: FundamentalsScore, projects: real, experience: real): real {
    dsa * OverallDsaWeight + f.average * OverallFundamentalsWeight
    + projects * OverallProjectsWeight + experience * OverallExperienceWeight
  }

  /** Overall score: the fixed weighted sum, rounded to one decimal; it stays in [0, 5] when its
      inputs do. */
  function OverallScore(dsa: real, f: FundamentalsScore, projects: real, experience: real): (r: real)
    ensures OverallRaw(dsa, f, projects, experience) - 0.05 < r <= OverallRaw(dsa, f, projects, experience) + 0.05
    ensures (r * 10.0).Floor as real == r * 10.0
    ensures (0.0 <= dsa <= 5.0 && 0.0 <= f.average <= 5.0 && 0.0 <= projects <= 5.0
             && 0.0 <= experience <= 5.0) ==> 0.0 <= r <= 5.0
  {
    var raw := OverallRaw(dsa, f, projects, experience);
    assert (0.0 <= dsa <= 5.0 && 0.0 <= f.average <= 5.0 && 0.0 <= projects <= 5.0
            && 0.0 <= experience <= 5.0) ==> 0.0 <= Round1(raw) <= 5.0 by {
      if 0.0 <= dsa <= 5.0 && 0.0 <= f.average <= 5.0 && 0.0 <= projects <= 5.0 && 0.0 <= experience <= 5.0 {
        Round1InScoreRange(raw);
      }
    }
    Round1(raw)
  }

  /** Every reported score lies in [0, 5]. */
  predicate ScoresInRange(s: SkillScores) {
    && 0.0 <= s.dsa <= 5.0
    && 0.0 <= s.fundamentals.os <= 5.0 && 0.0 <= s.fundamentals.cn <= 5.0
    && 0.0 <= s.fundamentals.dbms <= 5.0 && 0.0 <= s.fundamentals.oops <= 5.0
    && 0.0 <= s.fundamentals.average <= 5.0
    && 0.0 <= s.projects <= 5.0
    && 0.0 <= s.experience <= 5.0
    && 0.0 <= s.overall <= 5.0
  }

  /** The whole scorer. With non-negative durations every score is in [0, 5]; the fundamentals
      average is always the exact mean, and the overall score is the weighted sum of the other
      four to within rounding. */
  function AllScores(p: Profile): (r: SkillScores)
    ensures (forall i :: 0 <= i < |p.experiences| ==> p.experiences[i].duration >= 0.0) ==> ScoresInRange(r)
    ensures 4.0 * r.fundamentals.average
            == r.fundamentals.os + r.fundamentals.cn + r.fundamentals.dbms + r.fundamentals.oops
    ensures OverallRaw(r.dsa, r.fundamentals, r.projects, r.experience) - 0.05 < r.overall
            <= OverallRaw(r.dsa, r.fundamentals, r.projects, r.experience) + 0.05
    ensures p.projects == [] ==> r.projects == 0.0
    ensures p.experiences == [] ==> r.experience == 0.0
    ensures (r.experience * 10.0).Floor as real == r.experience * 10.0
    ensures (r.overall * 10.0).Floor as real == r.overall * 10.0
    ensures r.dsa == DsaScore(p.dsaLevel, p.dsaProblems)
    ensures r.fundamentals == Fundamentals(p.osLevel, p.cnLevel, p.dbmsLevel, p.oopsLevel)
    ensures r.projects == ProjectsScore(p.projects) && r.experience == ExperienceScore(p.experiences)
    ensures r.overall == OverallScore(r.dsa, r.fundamentals, r.projects, r.experience)
  {
    var dsa := DsaScore(p.dsaLevel, p.dsaProblems);
    var f := Fundamentals(p.osLevel, p.cnLevel, p.dbmsLevel, p.oopsLevel);
    var projects := ProjectsScore(p.projects);
    var experience := ExperienceScore(p.experiences);
    SkillScores(dsa, f, projects, experience, OverallScore(dsa, f, projects, experience))
  }

  /** An expert with 600 solved problems is capped at 5, and the fundamentals of someone
      advanced in all four areas average exactly 4, unaffected by the problem bonus. */
  lemma CapAndNoBonusExample(p: Profile)
    requires p.dsaLevel == Expert && p.dsaProblems == 600
    requires p.osLevel == Advanced && p.cnLevel == Advanced && p.dbmsLevel == Advanced && p.oopsLevel == Advanced
    ensures AllScores(p).dsa == 5.0
    ensures AllScores(p).fundamentals.average == 4.0
  {
  }

  /** The built-in demo profile. */
  const DemoProfile: Profile := Profile(
    "Demo User",
    Intermediate, 180,
    Intermediate, Basic, Intermediate, Advanced,
    [ Project("E-commerce Platform", "Full stack MERN application",
              ["React", "Node.js", "MongoDB", "Express"], IntermediateProject, true, true),
      Project("Chat Application", "Real-time chat with Socket.io",
              ["React", "Socket.io", "Node.js"], IntermediateProject, false, true) ],
    [ Experience(Internship, "Tech Startup", "SDE Intern", 3.0, ["React", "TypeScript", "AWS"]) ],
    ["Software Development Engineer", "Full Stack Developer"],
    ["Google", "Microsoft", "Amazon"],
    4, 20)

  /** The demo profile scores dsa 3.0, fundamentals average 2.625, projects 2.75,
      experience 0.8 and overall 2.5. */
  lemma DemoProfileScores()
    ensures AllScores(DemoProfile).dsa == 3.0
    ensures AllScores(DemoProfile).fundamentals.average == 2.625
    ensures AllScores(DemoProfile).projects == 2.75
    ensures AllScores(DemoProfile).experience == 0.8
    ensures AllScores(DemoProfile).overall == 2.5
  {
    var p := DemoProfile;
    assert ProjectsTotal(p.projects) == 5.5 by {
      assert ProjectScore(p.projects[0]) == 3.25;
      assert ProjectScore(p.projects[1]) == 2.25;
      assert p.projects[1..][1..] == [];
    }
    assert QualityMultiplier(p.experiences) == 1.2 by {
      assert p.experiences[1..] == [];
    }
    assert TotalMonths(p.experiences) == 3.0 by {
      assert p.experiences[1..] == [];
    }
    assert RawExperience(p.experiences) == 0.75;
    assert (7.5 + 0.5).Floor == 8;
    assert ExperienceScore(p.experiences) == 0.8;
    assert OverallRaw(3.0, FundamentalsScore(2.5, 1.5, 2.5, 4.0, 2.625), 2.75, 0.8) == 2.51375;
    assert (25.1375 + 0.5).Floor == 25;
  }
}
