/** The pure parts of the dashboard: the gaps it feeds the roadmap generator, the timeline
    defaults, the task-completion toggle, the negative advice list and the overall preparation
    estimate. */
module Dashboard {
  import opened Types
  import opened JsMath
  import opened Matching
  import opened RoadmapGen

  // ---------------------------------------------------------------- roadmap inputs

  /** The gaps of every match that is not recommended, match by match. */
  function AggregateGaps(matches: seq<CompanyMatch>): (r: seq<SkillGap>)
    ensures forall g :: g in r ==> exists i :: 0 <= i < |matches| && matches[i].status != Recommended && g in matches[i].gaps
    ensures forall i, g :: 0 <= i < |matches| && matches[i].status != Recommended && g in matches[i].gaps ==> g in r
  {
    if matches == [] then []
    else
      var head := if matches[0].status != Recommended then matches[0].gaps else [];
      var rest := AggregateGaps(matches[1..]);
      assert forall i :: 1 <= i < |matches| ==> matches[i] == matches[1..][i - 1];
      forall g | g in head + rest
        ensures exists i :: 0 <= i < |matches| && matches[i].status != Recommended && g in matches[i].gaps
      {
        if g !in head {
          var k :| 0 <= k < |matches[1..]| && matches[1..][k].status != Recommended && g in matches[1..][k].gaps;
          assert matches[k + 1] == matches[1..][k];
        }
      }
      head + rest
  }

  /** Aggregation is a flat map: it distributes over concatenation of the match list. */
  lemma {:induction false} AggregateGapsAppend(a: seq<CompanyMatch>, b: seq<CompanyMatch>)
    ensures AggregateGaps(a + b) == AggregateGaps(a) + AggregateGaps(b)
  {
    if a == [] {
      assert a + b == b;
    } else {
      assert (a + b)[1..] == a[1..] + b;
      AggregateGapsAppend(a[1..], b);
    }
  }

  /** A single match contributes its gaps unless it is recommended. */
  lemma AggregateGapsSingle(m: CompanyMatch)
    ensures AggregateGaps([m]) == if m.status != Recommended then m.gaps else []
  {
    assert [m][1..] == [];
  }

  /** `findIndex` by dimension: the index of a gap of dimension `d`, or -1 (that it is the
      first such index is `FindIndexIsFirst`). */
  function FindIndex(arr: seq<SkillGap>, d: Skill): (r: int)
    ensures -1 <= r < |arr|
    ensures r >= 0 ==> arr[r].skill == d
  {
    if arr == [] then -1
    else if arr[0].skill == d then 0
    else
      var k := FindIndex(arr[1..], d);
      if k < 0 then -1 else k + 1
  }

  /** `FindIndex` finds the first gap of the dimension, and -1 exactly when there is none. */
  lemma {:induction false} FindIndexIsFirst(arr: seq<SkillGap>, d: Skill)
    ensures FindIndex(arr, d) >= 0 ==> forall j :: 0 <= j < FindIndex(arr, d) ==> arr[j].skill != d
    ensures FindIndex(arr, d) == -1 <==> forall j :: 0 <= j < |arr| ==> arr[j].skill != d
  {
    if arr != [] && arr[0].skill != d {
      FindIndexIsFirst(arr[1..], d);
      assert forall j :: 1 <= j < |arr| ==> arr[j] == arr[1..][j - 1];
    }
  }

  /** `FindIndex` finds a gap exactly when the list has one of the dimension. */
  lemma FindIndexFinds(arr: seq<SkillGap>, d: Skill)
    ensures FindIndex(arr, d) >= 0 <==> HasGapFor(arr, d)
  {
    FindIndexIsFirst(arr, d);
    if FindIndex(arr, d) >= 0 {
      assert arr[FindIndex(arr, d)] in arr;
    }
    if HasGapFor(arr, d) {
      var g :| g in arr && g.skill == d;
      var k :| 0 <= k < |arr| && arr[k] == g;
    }
  }

  /** The first gap of a dimension in a concatenation is in the first part if it has one. */
  lemma {:induction false} FindIndexAppend(a: seq<SkillGap>, b: seq<SkillGap>, d: Skill)
    ensures FindIndex(a + b, d) == if FindIndex(a, d) >= 0 then FindIndex(a, d)
                                  else if FindIndex(b, d) >= 0 then |a| + FindIndex(b, d) else -1
  {
    if a == [] {
      assert a + b == b;
    } else {
      assert (a + b)[1..] == a[1..] + b;
      FindIndexAppend(a[1..], b, d);
    }
  }

  /** The first gap of dimension `d` in the aggregate comes from the earliest non-recommended
      match that has a gap of that dimension, and is that match's gap. */
  lemma {:induction false} FirstGapSource(matches: seq<CompanyMatch>, d: Skill) returns (j: int)
    requires HasGapFor(AggregateGaps(matches), d)
    ensures 0 <= j < |matches| && matches[j].status != Recommended
    ensures 0 <= FindIndex(AggregateGaps(matches), d)
    ensures AggregateGaps(matches)[FindIndex(AggregateGaps(matches), d)] in matches[j].gaps
    ensures forall k :: 0 <= k < j && matches[k].status != Recommended ==> !HasGapFor(matches[k].gaps, d)
  {
    var all := AggregateGaps(matches);
    FindIndexFinds(all, d);
    assert matches != [];
    var head := if matches[0].status != Recommended then matches[0].gaps else [];
    var rest := AggregateGaps(matches[1..]);
    assert all == head + rest;
    FindIndexAppend(head, rest, d);
    FindIndexFinds(head, d);
    if HasGapFor(head, d) {
      j := 0;
      assert all[FindIndex(all, d)] == head[FindIndex(head, d)];
    } else {
      FindIndexFinds(rest, d);
      var j' := FirstGapSource(matches[1..], d);
      j := j' + 1;
      assert all[FindIndex(all, d)] == rest[FindIndex(rest, d)];
      forall k | 0 <= k < j && matches[k].status != Recommended
        ensures !HasGapFor(matches[k].gaps, d)
      {
        if k > 0 {
          assert matches[k] == matches[1..][k - 1];
        }
      }
    }
  }

  /** Each gap of `r` is the first of its dimension in `arr`, at index `i` or later. */
  predicate FirstsFrom(arr: seq<SkillGap>, i: nat, r: seq<SkillGap>) {
    forall g :: g in r ==> FindIndex(arr, g.skill) >= i && g == arr[FindIndex(arr, g.skill)]
  }

  /** Every dimension whose first gap in `arr` is at index `i` or later has a gap in `r`. */
  predicate CoversFrom(arr: seq<SkillGap>, i: nat, r: seq<SkillGap>) {
    forall d :: FindIndex(arr, d) >= i ==> HasGapFor(r, d)
  }

  /** The gaps of `r` appear in the order of their first occurrences in `arr`. */
  predicate InFirstOrder(arr: seq<SkillGap>, r: seq<SkillGap>) {
    forall p, q :: 0 <= p < q < |r| ==> FindIndex(arr, r[p].skill) < FindIndex(arr, r[q].skill)
  }

  /** The gaps from index `i` on whose dimension occurs there for the first time. */
  function KeepFirsts(arr: seq<SkillGap>, i: nat): (r: seq<SkillGap>)
    requires i <= |arr|
    ensures FirstsFrom(arr, i, r) && CoversFrom(arr, i, r) && InFirstOrder(arr, r)
    decreases |arr| - i
  {
    if i == |arr| then []
    else
      var head := if FindIndex(arr, arr[i].skill) == i then [arr[i]] else [];
      var rest := KeepFirsts(arr, i + 1);
      KeepFirstsStep(arr, i, head, rest);
      head + rest
  }

  lemma KeepFirstsStep(arr: seq<SkillGap>, i: nat, head: seq<SkillGap>, rest: seq<SkillGap>)
    requires i < |arr|
    requires head == if FindIndex(arr, arr[i].skill) == i then [arr[i]] else []
    requires FirstsFrom(arr, i + 1, rest) && CoversFrom(arr, i + 1, rest) && InFirstOrder(arr, rest)
    ensures FirstsFrom(arr, i, head + rest) && CoversFrom(arr, i, head + rest) && InFirstOrder(arr, head + rest)
  {
    var r := head + rest;
    forall g | g in r ensures FindIndex(arr, g.skill) >= i && g == arr[FindIndex(arr, g.skill)] {
      if g !in rest {
        assert g == arr[i];
      }
    }
    forall d | FindIndex(arr, d) >= i ensures HasGapFor(r, d) {
      if FindIndex(arr, d) == i {
        assert r[0] == arr[i] && r[0] in r;
      } else {
        var g :| g in rest && g.skill == d;
        assert g in r;
      }
    }
    if head != [] {
      FirstOrderCons(arr, i, rest);
    }
  }

  lemma FirstOrderCons(arr: seq<SkillGap>, i: nat, rest: seq<SkillGap>)
    requires i < |arr| && FindIndex(arr, arr[i].skill) == i
    requires FirstsFrom(arr, i + 1, rest) && InFirstOrder(arr, rest)
    ensures InFirstOrder(arr, [arr[i]] + rest)
  {
    var r := [arr[i]] + rest;
    forall p, q | 0 <= p < q < |r| ensures FindIndex(arr, r[p].skill) < FindIndex(arr, r[q].skill) {
      assert r[q] == rest[q - 1];
      if p == 0 {
        assert r[q] in rest;
      } else {
        assert r[p] == rest[p - 1];
      }
    }
  }

  /** De-duplication by dimension: keeps the first gap of every dimension, in order. The
      result has one gap per dimension of the input, each the first of its dimension, in the
      order those first occurrences appear; so it has at most four gaps. */
  function UniqueGaps(arr: seq<SkillGap>): (r: seq<SkillGap>)
    ensures forall g :: g in r ==> FindIndex(arr, g.skill) >= 0 && g == arr[FindIndex(arr, g.skill)]
    ensures forall d :: HasGapFor(r, d) <==> HasGapFor(arr, d)
    ensures forall p, q :: 0 <= p < q < |r| ==> FindIndex(arr, r[p].skill) < FindIndex(arr, r[q].skill)
    ensures DistinctSkills(r) && |r| <= 4
  {
    var r := KeepFirsts(arr, 0);
    forall d ensures HasGapFor(r, d) <==> HasGapFor(arr, d) {
      if HasGapFor(arr, d) {
        var g :| g in arr && g.skill == d;
        var k :| 0 <= k < |arr| && arr[k] == g;
        FindIndexIsFirst(arr, d);
      }
      if HasGapFor(r, d) {
        var g :| g in r && g.skill == d;
        assert arr[FindIndex(arr, g.skill)] in arr;
      }
    }
    DistinctSkillsAtMostFour(r);
    r
  }

  /** The dimensions a gap list mentions. */
  function SkillsOf(r: seq<SkillGap>): set<Skill> {
    if r == [] then {} else {r[0].skill} + SkillsOf(r[1..])
  }

  /** A gap list without repeated dimensions has as many gaps as dimensions, so at most four. */
  lemma DistinctSkillsAtMostFour(r: seq<SkillGap>)
    requires DistinctSkills(r)
    ensures |r| <= 4
  {
    DistinctCount(r);
    var all: set<Skill> := {DsaSkill, FundamentalsSkill, ProjectsSkill, ExperienceSkill};
    assert SkillsOf(r) <= all by {
      forall d | d in SkillsOf(r) ensures d in all {
        match d
        case DsaSkill =>
        case FundamentalsSkill =>
        case ProjectsSkill =>
        case ExperienceSkill =>
      }
    }
    SubsetCard(SkillsOf(r), all);
  }

  lemma {:induction false} DistinctCount(r: seq<SkillGap>)
    requires DistinctSkills(r)
    ensures |SkillsOf(r)| == |r|
  {
    if r != [] {
      var t := r[1..];
      assert DistinctSkills(t) by {
        forall i, j | 0 <= i < j < |t| ensures t[i].skill != t[j].skill {
          assert t[i] == r[i + 1] && t[j] == r[j + 1];
        }
      }
      DistinctCount(t);
      SkillsOfMembers(t);
      forall g | g in t ensures g.skill != r[0].skill {
        var k :| 0 <= k < |t| && t[k] == g;
        assert r[k + 1] == g;
      }
      assert r[0].skill !in SkillsOf(t);
    }
  }

  /** `SkillsOf` holds exactly the dimensions that have a gap in the list. */
  lemma {:induction false} SkillsOfMembers(r: seq<SkillGap>)
    ensures forall d :: d in SkillsOf(r) <==> HasGapFor(r, d)
  {
    if r != [] {
      SkillsOfMembers(r[1..]);
      forall d ensures d in SkillsOf(r) <==> HasGapFor(r, d) {
        if HasGapFor(r, d) && d != r[0].skill {
          var g :| g in r && g.skill == d;
          assert g in r[1..];
        }
        if HasGapFor(r[1..], d) {
          var g :| g in r[1..] && g.skill == d;
          assert g in r;
        }
      }
    }
  }

  lemma SubsetCard<T>(a: set<T>, b: set<T>)
    requires a <= b
    ensures |a| <= |b|
  {
    assert b == a + (b - a);
  }

  /** `(timelineMonths || 4) * 4`: zero months falls back to four. */
  function TimelineWeeks(months: int): (r: int)
    ensures months != 0 ==> r == 4 * months
    ensures months == 0 ==> r == 16
  {
    (if months == 0 then 4 else months) * 4
  }

  /** `weeklyHours || 20`: zero hours falls back to twenty. */
  function WeeklyHours(hours: int): (r: int)
    ensures hours != 0 ==> r == hours
    ensures hours == 0 ==> r == 20
  {
    if hours == 0 then 20 else hours
  }

  /** Gap `g` belongs to non-recommended match `j`, and no earlier non-recommended match has
      a gap of its dimension. */
  predicate EarliestSource(matches: seq<CompanyMatch>, j: int, g: SkillGap) {
    && 0 <= j < |matches| && matches[j].status != Recommended && g in matches[j].gaps
    && forall k :: 0 <= k < j && matches[k].status != Recommended ==> !HasGapFor(matches[k].gaps, g.skill)
  }

  /** The gaps the dashboard hands to the roadmap generator: the de-duplicated gaps of every
      company of the catalog `cs` that is not recommended. Each is a real gap of such a
      company, no dimension repeats, every dimension some non-recommended match falls short
      in is present, and the gap kept for it comes from the first such match in ranking
      order. */
  function RoadmapGaps(cs: seq<Company>, skills: SkillScores): (r: seq<SkillGap>)
    ensures DistinctSkills(r) && |r| <= 4
    ensures forall g :: g in r ==> exists c :: c in cs && GapDescribes(g, c, skills)
    ensures var ms := MatchAllCompanies(cs, skills);
      forall j, d :: 0 <= j < |ms| && ms[j].status != Recommended && HasGapFor(ms[j].gaps, d) ==> HasGapFor(r, d)
    ensures var ms := MatchAllCompanies(cs, skills);
      forall g :: g in r ==> exists j :: EarliestSource(ms, j, g)
  {
    var matches := MatchAllCompanies(cs, skills);
    var all := AggregateGaps(matches);
    var r := UniqueGaps(all);
    RoadmapGapsFromCatalog(cs, skills, matches, all, r);
    RoadmapGapsCover(matches, all, r);
    RoadmapGapsEarliest(matches, all, r);
    r
  }

  lemma RoadmapGapsFromCatalog(cs: seq<Company>, skills: SkillScores, matches: seq<CompanyMatch>,
                               all: seq<SkillGap>, r: seq<SkillGap>)
    requires matches == MatchAllCompanies(cs, skills) && all == AggregateGaps(matches) && r == UniqueGaps(all)
    ensures forall g :: g in r ==> exists c :: c in cs && GapDescribes(g, c, skills)
  {
    forall g | g in r ensures exists c :: c in cs && GapDescribes(g, c, skills) {
      assert g in all by {
        assert all[FindIndex(all, g.skill)] in all;
      }
      var i :| 0 <= i < |matches| && matches[i].status != Recommended && g in matches[i].gaps;
      var k := MatchAllFromCatalog(cs, skills, i);
      assert cs[k] in cs;
    }
  }

  lemma RoadmapGapsCover(matches: seq<CompanyMatch>, all: seq<SkillGap>, r: seq<SkillGap>)
    requires all == AggregateGaps(matches) && r == UniqueGaps(all)
    ensures forall j, d :: 0 <= j < |matches| && matches[j].status != Recommended && HasGapFor(matches[j].gaps, d) ==> HasGapFor(r, d)
  {
    forall j, d | 0 <= j < |matches| && matches[j].status != Recommended && HasGapFor(matches[j].gaps, d)
      ensures HasGapFor(r, d)
    {
      var g :| g in matches[j].gaps && g.skill == d;
      assert g in all;
    }
  }

  lemma RoadmapGapsEarliest(matches: seq<CompanyMatch>, all: seq<SkillGap>, r: seq<SkillGap>)
    requires all == AggregateGaps(matches) && r == UniqueGaps(all)
    ensures forall g :: g in r ==> exists j :: EarliestSource(matches, j, g)
  {
    forall g | g in r
      ensures exists j :: EarliestSource(matches, j, g)
    {
      assert all[FindIndex(all, g.skill)] in all;
      var j := FirstGapSource(matches, g.skill);
      assert EarliestSource(matches, j, g);
    }
  }

  /** The dashboard's roadmap for a profile, its scores and the company catalog: at most
      as many weeks as the derived timeline, and at least one whenever the month count is not
      negative. */
  function DashboardRoadmap(p: Profile, skills: SkillScores, cs: seq<Company>): (r: Roadmap)
    ensures r.weeks == [] || |r.weeks| <= TimelineWeeks(p.timelineMonths)
    ensures p.timelineMonths >= 0 ==> r.weeks != []
  {
    var timeline := TimelineWeeks(p.timelineMonths);
    var gaps := RoadmapGaps(cs, skills);
    var weekly := WeeklyHours(p.weeklyHours);
    GeneratedLength(skills, gaps, timeline, weekly);
    Generate(skills, gaps, timeline, weekly)
  }

  // ---------------------------------------------------------------- task toggle

  function ToggleTask(t: Task, id: nat): Task {
    if t.id == id then t.(isCompleted := !t.isCompleted) else t
  }

  /** Task list `b` is task list `a` with exactly the tasks numbered `id` flipped. */
  predicate SameTasksUpToToggle(a: seq<Task>, b: seq<Task>, id: nat) {
    && |b| == |a|
    && forall k :: 0 <= k < |a| ==>
         && b[k].(isCompleted := a[k].isCompleted) == a[k]
         && (b[k].isCompleted != a[k].isCompleted <==> a[k].id == id)
  }

  /** Week `b` is week `a` with exactly the tasks numbered `id` flipped. */
  predicate SameWeekUpToToggle(a: Week, b: Week, id: nat) {
    && b.number == a.number && b.theme == a.theme && b.hours == a.hours
    && SameTasksUpToToggle(a.tasks, b.tasks, id)
  }

  function ToggleTasks(ts: seq<Task>, id: nat): (r: seq<Task>)
    ensures SameTasksUpToToggle(ts, r, id)
  {
    if ts == [] then [] else [ToggleTask(ts[0], id)] + ToggleTasks(ts[1..], id)
  }

  function ToggleWeeks(ws: seq<Week>, id: nat): (r: seq<Week>)
    ensures |r| == |ws|
    ensures forall i :: 0 <= i < |ws| ==> SameWeekUpToToggle(ws[i], r[i], id)
  {
    if ws == [] then [] else [ws[0].(tasks := ToggleTasks(ws[0].tasks, id))] + ToggleWeeks(ws[1..], id)
  }

  /** `handleTaskToggle`: flips completion of the tasks with the given number and changes
      nothing else; without a roadmap nothing happens. */
  function Toggle(rm: Option<Roadmap>, id: nat): (r: Option<Roadmap>)
    ensures r.Some? <==> rm.Some?
    ensures rm.Some? ==>
      && r.value.totalWeeks == rm.value.totalWeeks
      && r.value.excludedTopics == rm.value.excludedTopics
      && |r.value.weeks| == |rm.value.weeks|
      && forall i :: 0 <= i < |rm.value.weeks| ==> SameWeekUpToToggle(rm.value.weeks[i], r.value.weeks[i], id)
  {
    match rm
    case None => None
    case Some(m) => Some(m.(weeks := ToggleWeeks(m.weeks, id)))
  }

  /** Two lists related by the same toggle are equal once flipped back. */
  lemma {:induction false} ToggleTasksTwice(ts: seq<Task>, id: nat)
    ensures ToggleTasks(ToggleTasks(ts, id), id) == ts
  {
    if ts != [] {
      ToggleTasksTwice(ts[1..], id);
      assert ToggleTasks(ts, id)[1..] == ToggleTasks(ts[1..], id);
    }
  }

  lemma {:induction false} ToggleWeeksTwice(ws: seq<Week>, id: nat)
    ensures ToggleWeeks(ToggleWeeks(ws, id), id) == ws
  {
    if ws != [] {
      ToggleWeeksTwice(ws[1..], id);
      ToggleTasksTwice(ws[0].tasks, id);
      assert ToggleWeeks(ws, id)[1..] == ToggleWeeks(ws[1..], id);
    }
  }

  /** Toggling the same task twice restores the roadmap. */
  lemma ToggleTwice(rm: Option<Roadmap>, id: nat)
    ensures Toggle(Toggle(rm, id), id) == rm
  {
    if rm.Some? {
      ToggleWeeksTwice(rm.value.weeks, id);
    }
  }

  // ---------------------------------------------------------------- negative advice

  datatype AdviceKind = CompanyAdvice | SkillAdvice | ApproachAdvice

  datatype Advice = Advice(kind: AdviceKind, title: string, reason: string)

  /** The matches whose status is avoid, in ranking order. */
  function AvoidMatches(matches: seq<CompanyMatch>): (r: seq<CompanyMatch>)
    ensures |r| <= |matches|
    ensures forall m :: m in r <==> m in matches && m.status == Avoid
  {
    if matches == [] then []
    else (if matches[0].status == Avoid then [matches[0]] else []) + AvoidMatches(matches[1..])
  }

  /** The filter distributes over concatenation, so it keeps the ranking order. */
  lemma {:induction false} AvoidMatchesAppend(a: seq<CompanyMatch>, b: seq<CompanyMatch>)
    ensures AvoidMatches(a + b) == AvoidMatches(a) + AvoidMatches(b)
  {
    if a == [] {
      assert a + b == b;
    } else {
      assert (a + b)[1..] == a[1..] + b;
      AvoidMatchesAppend(a[1..], b);
    }
  }

  /** A single match is kept exactly when its status is avoid. */
  lemma AvoidMatchesSingle(m: CompanyMatch)
    ensures AvoidMatches([m]) == if m.status == Avoid then [m] else []
  {
    assert [m][1..] == [];
  }

  /** `slice(0, 2)` on a length: the length, but at most two. */
  function AtMostTwo(n: nat): nat {
    if n < 2 then n else 2
  }

  /** The advice against applying to an avoid company, naming its top gap's dimension. */
  function CompanyAdviceFor(m: CompanyMatch): Advice {
    Advice(CompanyAdvice, "Don't apply to " + m.company.name + " yet",
           (if m.gaps != [] then SkillLabel(m.gaps[0].skill) else "Multiple skills")
           + " needs significant improvement. Focus on fundamentals first.")
  }

  function SkipAdvice(topic: string): Advice {
    Advice(SkillAdvice, "Skip " + topic, "Low ROI for your timeline. Focus on core interview topics instead.")
  }

  const SystemDesignAdvice :=
    Advice(ApproachAdvice, "Don't jump to system design",
           "Master DSA and CS fundamentals first. System design comes later.")

  /** The advices of one kind, in order. */
  function OfKind(advices: seq<Advice>, k: AdviceKind): (r: seq<Advice>)
    ensures |r| <= |advices|
    ensures forall a :: a in r <==> a in advices && a.kind == k
  {
    if advices == [] then []
    else (if advices[0].kind == k then [advices[0]] else []) + OfKind(advices[1..], k)
  }

  lemma {:induction false} OfKindAppend(a: seq<Advice>, b: seq<Advice>, k: AdviceKind)
    ensures OfKind(a + b, k) == OfKind(a, k) + OfKind(b, k)
  {
    if a == [] {
      assert a + b == b;
    } else {
      assert (a + b)[1..] == a[1..] + b;
      OfKindAppend(a[1..], b, k);
    }
  }

  lemma OfKindNone(advices: seq<Advice>, k: AdviceKind)
    requires forall a :: a in advices ==> a.kind != k
    ensures OfKind(advices, k) == []
  {
  }

  /** No advice at all without matches. Otherwise: advice against the first two avoid
      companies, then skip advice for the roadmap's first two excluded topics, then the
      system-design advice when both DSA and the fundamentals average are below 3. */
  function NegativeAdvices(matches: seq<CompanyMatch>, rm: Option<Roadmap>, skills: SkillScores): (r: seq<Advice>)
    ensures matches == [] ==> r == []
    ensures r == OfKind(r, CompanyAdvice) + OfKind(r, SkillAdvice) + OfKind(r, ApproachAdvice)
    ensures matches != [] ==> OfKind(r, CompanyAdvice) == CompanyAdvices(matches)
    ensures matches != [] ==> OfKind(r, SkillAdvice) == SkipAdvices(rm)
    ensures OfKind(r, ApproachAdvice)
      == if matches != [] && skills.dsa < 3.0 && skills.fundamentals.average < 3.0 then [SystemDesignAdvice] else []
    ensures |OfKind(r, CompanyAdvice)| <= 2
    ensures forall a :: a in OfKind(r, CompanyAdvice) ==> exists m :: m in matches && m.status == Avoid && a == CompanyAdviceFor(m)
    ensures |OfKind(r, SkillAdvice)| <= 2
    ensures forall a :: a in OfKind(r, SkillAdvice) ==> rm.Some? && exists t :: t in rm.value.excludedTopics && a == SkipAdvice(t)
    ensures SystemDesignAdvice in r <==> matches != [] && skills.dsa < 3.0 && skills.fundamentals.average < 3.0
    ensures |r| <= 5
  {
    if matches == [] then []
    else
      var companies := CompanyAdvices(matches);
      var skips := SkipAdvices(rm);
      var approach := if skills.dsa < 3.0 && skills.fundamentals.average < 3.0 then [SystemDesignAdvice] else [];
      ThreeKinds(companies, skips, approach);
      companies + skips + approach
  }

  /** Advice against the first two avoid companies, in ranking order. */
  function CompanyAdvices(matches: seq<CompanyMatch>): (r: seq<Advice>)
    ensures |r| == AtMostTwo(|AvoidMatches(matches)|)
    ensures forall i :: 0 <= i < |r| ==> r[i] == CompanyAdviceFor(AvoidMatches(matches)[i])
    ensures |r| <= 2
    ensures forall a :: a in r ==> a.kind == CompanyAdvice
    ensures forall a :: a in r ==> exists m :: m in matches && m.status == Avoid && a == CompanyAdviceFor(m)
  {
    var avoid := AvoidMatches(matches);
    var picked := avoid[..AtMostTwo(|avoid|)];
    var companies := seq(|picked|, i requires 0 <= i < |picked| => CompanyAdviceFor(picked[i]));
    CompanyAdvicesFrom(matches, picked, companies);
    companies
  }

  /** Skip advice for the roadmap's first two excluded topics; none without a roadmap. */
  function SkipAdvices(rm: Option<Roadmap>): (r: seq<Advice>)
    ensures rm.None? ==> r == []
    ensures rm.Some? ==> |r| == AtMostTwo(|rm.value.excludedTopics|)
    ensures rm.Some? ==> forall i :: 0 <= i < |r| ==> r[i] == SkipAdvice(rm.value.excludedTopics[i])
    ensures |r| <= 2
    ensures forall a :: a in r ==> a.kind == SkillAdvice
    ensures forall a :: a in r ==> rm.Some? && exists t :: t in rm.value.excludedTopics && a == SkipAdvice(t)
  {
    var topics := if rm.Some? then rm.value.excludedTopics[..AtMostTwo(|rm.value.excludedTopics|)] else [];
    var skips := seq(|topics|, i requires 0 <= i < |topics| => SkipAdvice(topics[i]));
    SkipAdvicesFrom(rm, topics, skips);
    skips
  }

  lemma CompanyAdvicesFrom(matches: seq<CompanyMatch>, picked: seq<CompanyMatch>, companies: seq<Advice>)
    requires forall m :: m in picked ==> m in matches && m.status == Avoid
    requires |companies| == |picked| && forall i :: 0 <= i < |picked| ==> companies[i] == CompanyAdviceFor(picked[i])
    ensures forall a :: a in companies ==> exists m :: m in matches && m.status == Avoid && a == CompanyAdviceFor(m)
    ensures forall a :: a in companies ==> a.kind == CompanyAdvice
  {
    forall a | a in companies
      ensures exists m :: m in matches && m.status == Avoid && a == CompanyAdviceFor(m)
    {
      var i :| 0 <= i < |companies| && companies[i] == a;
      assert picked[i] in picked;
    }
  }

  lemma SkipAdvicesFrom(rm: Option<Roadmap>, topics: seq<string>, skips: seq<Advice>)
    requires topics != [] ==> rm.Some? && forall t :: t in topics ==> t in rm.value.excludedTopics
    requires |skips| == |topics| && forall i :: 0 <= i < |topics| ==> skips[i] == SkipAdvice(topics[i])
    ensures forall a :: a in skips ==> rm.Some? && exists t :: t in rm.value.excludedTopics && a == SkipAdvice(t)
    ensures forall a :: a in skips ==> a.kind == SkillAdvice
  {
    forall a | a in skips
      ensures rm.Some? && exists t :: t in rm.value.excludedTopics && a == SkipAdvice(t)
    {
      var i :| 0 <= i < |skips| && skips[i] == a;
      assert topics[i] in topics;
    }
  }

  /** Company advice, then skip advice, then approach advice: filtering by kind recovers each
      part. */
  lemma ThreeKinds(companies: seq<Advice>, skips: seq<Advice>, approach: seq<Advice>)
    requires forall a :: a in companies ==> a.kind == CompanyAdvice
    requires forall a :: a in skips ==> a.kind == SkillAdvice
    requires approach == [] || approach == [SystemDesignAdvice]
    ensures OfKind(companies + skips + approach, CompanyAdvice) == companies
    ensures OfKind(companies + skips + approach, SkillAdvice) == skips
    ensures OfKind(companies + skips + approach, ApproachAdvice) == approach
    ensures SystemDesignAdvice in companies + skips + approach <==> approach != []
  {
    ApproachOfThree(companies, skips, approach);
    OfKindAppend(companies + skips, approach, CompanyAdvice);
    OfKindAppend(companies, skips, CompanyAdvice);
    OfKindAppend(companies + skips, approach, SkillAdvice);
    OfKindAppend(companies, skips, SkillAdvice);
    OfKindAll(companies, CompanyAdvice);
    OfKindAll(skips, SkillAdvice);
    OfKindNone(skips, CompanyAdvice);
    OfKindNone(approach, CompanyAdvice);
    OfKindNone(approach, SkillAdvice);
    OfKindNone(companies, SkillAdvice);
    assert SystemDesignAdvice !in companies + skips;
  }

  lemma ApproachOfThree(companies: seq<Advice>, skips: seq<Advice>, approach: seq<Advice>)
    requires forall a :: a in companies ==> a.kind == CompanyAdvice
    requires forall a :: a in skips ==> a.kind == SkillAdvice
    requires approach == [] || approach == [SystemDesignAdvice]
    ensures OfKind(companies + skips + approach, ApproachAdvice) == approach
  {
    OfKindAppend(companies + skips, approach, ApproachAdvice);
    OfKindAppend(companies, skips, ApproachAdvice);
    OfKindNone(companies, ApproachAdvice);
    OfKindNone(skips, ApproachAdvice);
    OfKindAll(approach, ApproachAdvice);
  }

  lemma {:induction false} OfKindAll(advices: seq<Advice>, k: AdviceKind)
    requires forall a :: a in advices ==> a.kind == k
    ensures OfKind(advices, k) == advices
  {
    if advices != [] {
      assert advices[0] in advices;
      OfKindAll(advices[1..], k);
    }
  }

  // ---------------------------------------------------------------- preparation estimate

  /** `Math.max(...prepTimes, 4)`: at least four weeks, at least every match's estimate, and
      equal to four or to one of the estimates. */
  function EstimatedPrepWeeks(matches: seq<CompanyMatch>): (r: int)
    ensures r >= 4
    ensures forall m :: m in matches ==> m.prepTime <= r
    ensures r == 4 || exists m :: m in matches && m.prepTime == r
  {
    if matches == [] then 4
    else
      var rest := EstimatedPrepWeeks(matches[1..]);
      assert forall m :: m in matches[1..] ==> m in matches;
      assert forall m :: m in matches ==> m == matches[0] || m in matches[1..];
      if matches[0].prepTime > rest then matches[0].prepTime else rest
  }
}
