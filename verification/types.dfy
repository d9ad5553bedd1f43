/** The records that flow through the pipeline: the onboarding profile, the derived skill
    scores, the company catalog entries, the per-company match and the roadmap. String-typed
    enumerations of the original are closed datatypes here. */
module Types {

  datatype Option<T> = None | Some(value: T)

  /** An ordinal self-assessment. `Unrecognized` stands for any string outside the lookup
      table, which the scorer treats as contributing nothing. */
  datatype Level = NoLevel | Beginner | Basic | Intermediate | Advanced | Expert | Unrecognized

  datatype Complexity = BasicProject | IntermediateProject | AdvancedProject

  datatype ExperienceType = Internship | Fulltime | Freelance

  datatype Project = Project(
    name: string,
    description: string,
    technologies: seq<string>,
    complexity: Complexity,
    hasDeployment: bool,
    hasGithub: bool)

  /** One work experience; `duration` is in months. */
  datatype Experience = Experience(
    kind: ExperienceType,
    company: string,
    role: string,
    duration: real,
    technologies: seq<string>)

  /** The onboarding form data the scorer and the dashboard consume. */
  datatype Profile = Profile(
    name: string,
    dsaLevel: Level,
    dsaProblems: int,
    osLevel: Level,
    cnLevel: Level,
    dbmsLevel: Level,
    oopsLevel: Level,
    projects: seq<Project>,
    experiences: seq<Experience>,
    targetRoles: seq<string>,
    targetCompanies: seq<string>,
    timelineMonths: int,
    weeklyHours: int)

  datatype FundamentalsScore = FundamentalsScore(os: real, cn: real, dbms: real, oops: real, average: real)

  datatype SkillScores = SkillScores(
    dsa: real,
    fundamentals: FundamentalsScore,
    projects: real,
    experience: real,
    overall: real)

  /** The four skill dimensions; used for reject-rule fields, gap labels and roadmap dispatch. */
  datatype Skill = DsaSkill | FundamentalsSkill | ProjectsSkill | ExperienceSkill

  /** The display label a gap carries. */
  function SkillLabel(s: Skill): string {
    match s
    case DsaSkill => "DSA"
    case FundamentalsSkill => "CS Fundamentals"
    case ProjectsSkill => "Projects"
    case ExperienceSkill => "Experience"
  }

  /** The score a dimension reads from; fundamentals resolves to its average. */
  function SkillValue(s: SkillScores, d: Skill): real {
    match d
    case DsaSkill => s.dsa
    case FundamentalsSkill => s.fundamentals.average
    case ProjectsSkill => s.projects
    case ExperienceSkill => s.experience
  }

  datatype Priority = High | Medium | Low

  /** Sort position of a priority: high first. */
  function PriorityRank(p: Priority): real {
    match p
    case High => 0.0
    case Medium => 1.0
    case Low => 2.0
  }

  datatype Operator = Lt | Gt | Eq | Ne

  datatype RejectRule = RejectRule(field: Skill, op: Operator, value: real, message: string)

  datatype Weights = Weights(dsa: real, fundamentals: real, projects: real, experience: real)

  datatype Requirements = Requirements(
    minDsa: real,
    minFundamentals: real,
    minProjects: real,
    minExperience: real,
    weights: Weights)

  /** A catalog entry; the descriptive tier and interview pattern feed no logic and are omitted. */
  datatype Company = Company(id: string, name: string, requirements: Requirements, rejectRules: seq<RejectRule>)

  /** The minimum a company requires on a dimension. */
  function MinFor(r: Requirements, d: Skill): real {
    match d
    case DsaSkill => r.minDsa
    case FundamentalsSkill => r.minFundamentals
    case ProjectsSkill => r.minProjects
    case ExperienceSkill => r.minExperience
  }

  /** The fit weight a company gives a dimension. */
  function WeightFor(w: Weights, d: Skill): real {
    match d
    case DsaSkill => w.dsa
    case FundamentalsSkill => w.fundamentals
    case ProjectsSkill => w.projects
    case ExperienceSkill => w.experience
  }

  datatype Status = Recommended | Prepare | Avoid

  datatype SkillGap = SkillGap(skill: Skill, current: real, required: real, gap: real, priority: Priority)

  datatype CompanyMatch = CompanyMatch(
    company: Company,
    fitScore: int,
    status: Status,
    gaps: seq<SkillGap>,
    prepTime: int)

  datatype Category = DsaTask | FundamentalsTask | ProjectsTask | SoftSkillsTask

  /** A roadmap task; `id` k stands for the string `task-k`. */
  datatype Task = Task(
    id: nat,
    title: string,
    description: string,
    category: Category,
    priority: Priority,
    hours: nat,
    resources: seq<string>,
    isCompleted: bool)

  datatype Week = Week(number: int, theme: string, tasks: seq<Task>, hours: int)

  /** A generated roadmap; the clock-derived id and timestamp are not modelled. */
  datatype Roadmap = Roadmap(totalWeeks: int, weeks: seq<Week>, excludedTopics: seq<string>)

  /** Total hours of a list of tasks. */
  function TaskHours(ts: seq<Task>): nat {
    if ts == [] then 0 else ts[0].hours + TaskHours(ts[1..])
  }

  /** All tasks of a list of weeks, week by week. */
  function AllTasks(weeks: seq<Week>): seq<Task> {
    if weeks == [] then [] else weeks[0].tasks + AllTasks(weeks[1..])
  }

  /** Sum of the weeks' recorded hours. */
  function WeekHours(weeks: seq<Week>): int {
    if weeks == [] then 0 else weeks[0].hours + WeekHours(weeks[1..])
  }

  lemma {:induction false} TaskHoursAppend(a: seq<Task>, b: seq<Task>)
    ensures TaskHours(a + b) == TaskHours(a) + TaskHours(b)
  {
    if a == [] {
      assert a + b == b;
    } else {
      assert (a + b)[1..] == a[1..] + b;
      TaskHoursAppend(a[1..], b);
    }
  }

  lemma {:induction false} AllTasksAppend(a: seq<Week>, b: seq<Week>)
    ensures AllTasks(a + b) == AllTasks(a) + AllTasks(b)
  {
    if a == [] {
      assert a + b == b;
    } else {
      assert (a + b)[1..] == a[1..] + b;
      AllTasksAppend(a[1..], b);
    }
  }

  lemma {:induction false} WeekHoursAppend(a: seq<Week>, b: seq<Week>)
    ensures WeekHours(a + b) == WeekHours(a) + WeekHours(b)
  {
    if a == [] {
      assert a + b == b;
    } else {
      assert (a + b)[1..] == a[1..] + b;
      WeekHoursAppend(a[1..], b);
    }
  }

  /** A prefix of a task list takes no more hours than the whole list. */
  lemma TaskHoursPrefix(a: seq<Task>, b: seq<Task>)
    requires a <= b
    ensures TaskHours(a) <= TaskHours(b)
  {
    assert b == a + b[|a|..];
    TaskHoursAppend(a, b[|a|..]);
  }
}
