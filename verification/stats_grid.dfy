/** The dashboard's stat cards: the readiness label for the overall score, the counts of
    companies ready to apply to and needing preparation, and the primary focus area. */
module StatsGrid {
  import opened Types
  import opened StableSort

  // ---------------------------------------------------------------- score level

  /** The readiness label of an overall score, by bands at 4.5, 4, 3 and 2. */
  function ScoreLevel(score: real): (r: string)
    ensures r == "Elite Ready" <==> 4.5 <= score
    ensures r == "Strong" <==> 4.0 <= score < 4.5
    ensures r == "Intermediate" <==> 3.0 <= score < 4.0
    ensures r == "Building Up" <==> 2.0 <= score < 3.0
    ensures r == "Getting Started" <==> score < 2.0
  {
    if score >= 4.5 then "Elite Ready"
    else if score >= 4.0 then "Strong"
    else if score >= 3.0 then "Intermediate"
    else if score >= 2.0 then "Building Up"
    else "Getting Started"
  }

  /** The position of a label in the ladder, from "Getting Started" (0) to "Elite Ready" (4). */
  function LevelRank(level: string): int {
    if level == "Elite Ready" then 4
    else if level == "Strong" then 3
    else if level == "Intermediate" then 2
    else if level == "Building Up" then 1
    else 0
  }

  /** A higher score never earns a lower label. */
  lemma ScoreLevelMonotone(a: real, b: real)
    requires a <= b
    ensures LevelRank(ScoreLevel(a)) <= LevelRank(ScoreLevel(b))
  {
  }

  // ---------------------------------------------------------------- company counts

  /** How many matches have the given status. */
  function CountStatus(matches: seq<CompanyMatch>, st: Status): (r: nat)
    ensures r <= |matches|
    ensures r == 0 <==> forall m :: m in matches ==> m.status != st
  {
    if matches == [] then 0
    else
      var rest := CountStatus(matches[1..], st);
      assert forall m :: m in matches ==> m == matches[0] || m in matches[1..];
      assert forall m :: m in matches[1..] ==> m in matches;
      (if matches[0].status == st then 1 else 0) + rest
  }

  /** Counting distributes over concatenation. */
  lemma {:induction false} CountStatusAppend(a: seq<CompanyMatch>, b: seq<CompanyMatch>, st: Status)
    ensures CountStatus(a + b, st) == CountStatus(a, st) + CountStatus(b, st)
  {
    if a == [] {
      assert a + b == b;
    } else {
      assert (a + b)[1..] == a[1..] + b;
      CountStatusAppend(a[1..], b, st);
    }
  }

  /** The positions whose match has the status. */
  function StatusPositions(matches: seq<CompanyMatch>, st: Status): set<int> {
    set i | 0 <= i < |matches| && matches[i].status == st
  }

  /** Appending a match adds its position exactly when it has the status. */
  lemma StatusPositionsSnoc(a: seq<CompanyMatch>, x: CompanyMatch, st: Status)
    ensures StatusPositions(a + [x], st) == StatusPositions(a, st) + (if x.status == st then {|a|} else {})
    ensures |a| !in StatusPositions(a, st)
  {
    var all := StatusPositions(a + [x], st);
    forall i | i in all ensures i in StatusPositions(a, st) + (if x.status == st then {|a|} else {}) {
      if i < |a| {
        assert (a + [x])[i] == a[i];
      }
    }
    forall i | i in StatusPositions(a, st) ensures i in all {
      assert (a + [x])[i] == a[i];
    }
  }

  /** The count is the number of positions whose match has the status, as `filter(...).length`
      gives it. */
  lemma {:induction false} CountStatusIsCardinality(matches: seq<CompanyMatch>, st: Status)
    ensures CountStatus(matches, st) == |set i | 0 <= i < |matches| && matches[i].status == st|
  {
    var n := |matches|;
    if n == 0 {
      assert StatusPositions(matches, st) == {};
    } else {
      var a, x := matches[..n - 1], matches[n - 1];
      assert matches == a + [x];
      CountStatusIsCardinality(a, st);
      CountStatusAppend(a, [x], st);
      assert [x][1..] == [];
      StatusPositionsSnoc(a, x, st);
    }
    assert StatusPositions(matches, st) == set i | 0 <= i < |matches| && matches[i].status == st;
  }

  /** Every match is counted under exactly one status, so the "ready to apply" and "need prep"
      counts together never exceed the number of companies. */
  lemma {:induction false} StatusCountsPartition(matches: seq<CompanyMatch>)
    ensures CountStatus(matches, Recommended) + CountStatus(matches, Prepare) + CountStatus(matches, Avoid) == |matches|
  {
    if matches != [] {
      StatusCountsPartition(matches[1..]);
    }
  }

  // ---------------------------------------------------------------- primary focus

  /** The four areas the card weighs. */
  datatype FocusArea = DsaArea | CsCoreArea | ProjectsArea | ExperienceArea

  /** The name the card shows for an area. */
  function AreaName(a: FocusArea): string {
    match a
    case DsaArea => "DSA"
    case CsCoreArea => "CS Core"
    case ProjectsArea => "Projects"
    case ExperienceArea => "Experience"
  }

  /** A scored area of the profile. */
  datatype Area = Area(area: FocusArea, value: real)

  function AreaValue(a: Area): real { a.value }

  /** The four areas, in the order the card lists them. */
  function FocusAreas(s: SkillScores): (r: seq<Area>)
    ensures |r| == 4
  {
    [Area(DsaArea, s.dsa), Area(CsCoreArea, s.fundamentals.average),
     Area(ProjectsArea, s.projects), Area(ExperienceArea, s.experience)]
  }

  /** The first area after a stable ascending sort on value: the area with the lowest score,
      the earliest listed among equals. */
  function PrimaryFocusArea(s: SkillScores): (r: FocusArea)
    ensures exists i :: 0 <= i < 4 && IsFirstMinimum(FocusAreas(s), i) && FocusAreas(s)[i].area == r
  {
    var areas := FocusAreas(s);
    var sorted := Sort(areas, AreaValue);
    PrimaryFocusIsFirstMinimum(areas);
    sorted[0].area
  }

  /** The primary-focus card's text. */
  function PrimaryFocus(s: SkillScores): string {
    AreaName(PrimaryFocusArea(s))
  }

  /** Area `i` has the lowest value, and every area before it a strictly higher one. */
  predicate IsFirstMinimum(areas: seq<Area>, i: int)
    requires 0 <= i < |areas|
  {
    && (forall j :: 0 <= j < |areas| ==> areas[i].value <= areas[j].value)
    && (forall j :: 0 <= j < i ==> areas[i].value < areas[j].value)
  }

  /** The head of the stable ascending sort is the earliest area of least value. */
  lemma PrimaryFocusIsFirstMinimum(areas: seq<Area>)
    requires |areas| > 0
    ensures exists i :: 0 <= i < |areas| && IsFirstMinimum(areas, i) && Sort(areas, AreaValue)[0] == areas[i]
  {
    var h := Sort(areas, AreaValue)[0];
    SortHead(areas, AreaValue);
    var i := KeyFilterFirst(areas, AreaValue, AreaValue(h));
    forall j | 0 <= j < |areas| ensures areas[i].value <= areas[j].value {
      assert areas[j] in areas;
    }
    assert IsFirstMinimum(areas, i);
  }

  /** The index of the area `PrimaryFocusArea` picks. */
  lemma FocusIndex(s: SkillScores) returns (i: int)
    ensures 0 <= i < 4 && IsFirstMinimum(FocusAreas(s), i) && FocusAreas(s)[i].area == PrimaryFocusArea(s)
  {
    var r := PrimaryFocusArea(s);
    i :| 0 <= i < 4 && IsFirstMinimum(FocusAreas(s), i) && FocusAreas(s)[i].area == r;
  }

  /** DSA, listed first, is the focus whenever no area scores lower, ties included. */
  lemma DsaFocusOnTies(s: SkillScores)
    requires s.dsa <= s.fundamentals.average && s.dsa <= s.projects && s.dsa <= s.experience
    ensures PrimaryFocusArea(s) == DsaArea
  {
    var areas := FocusAreas(s);
    var i := FocusIndex(s);
    assert areas[0].value <= areas[i].value;
  }

  /** Experience, listed last, is the focus when it is strictly below all three others. */
  lemma ExperienceFocusWhenStrictlyLowest(s: SkillScores)
    requires s.experience < s.dsa && s.experience < s.fundamentals.average && s.experience < s.projects
    ensures PrimaryFocusArea(s) == ExperienceArea
  {
    var areas := FocusAreas(s);
    var i := FocusIndex(s);
    assert areas[i].value <= areas[3].value;
  }
}
