/** The roadmap generator. Gaps are stable-sorted by priority; for each one a prefix of its
    topic pool is turned into tasks under a global hour budget (timeline weeks times weekly
    hours), the tasks are packed greedily into consecutively numbered weeks that stop at the
    timeline, and a fixed interview-preparation week is appended if a week is left.

    The generator's loops are a fold over `GenState`: the weeks so far, the week counter, the
    next task number and the hours used. */
module RoadmapGen {
  import opened Types
  import opened JsMath
  import opened StableSort
  import opened Topics
  import Matching

  // ---------------------------------------------------------------- tracks

  /** What a gap dimension contributes: a week theme, a task category, a topic pool and the
      text around a topic title that makes a task description. */
  datatype Track = Track(theme: string, category: Category, pool: seq<Topic>, lead: string, trail: string)

  const InterviewTheme: string := "Interview Preparation"

  /** The track of a gap dimension; experience gaps have none and produce no tasks. */
  function TrackFor(d: Skill, dsa: real): (r: Option<Track>)
    ensures r.None? <==> d == ExperienceSkill
    ensures r.Some? ==> r.value.theme != InterviewTheme && r.value.category != SoftSkillsTask
    ensures d == DsaSkill ==> r.value.theme == "Data Structures & Algorithms"
    ensures d == FundamentalsSkill ==> r.value.theme == "Computer Science Fundamentals"
    ensures d == ProjectsSkill ==> r.value.theme == "Project Building"
    ensures d == DsaSkill ==> r.value.category == DsaTask && r.value.pool == DsaPool(dsa)
    ensures d == FundamentalsSkill ==> r.value.category == FundamentalsTask && r.value.pool == FundamentalsPool()
    ensures d == ProjectsSkill ==> r.value.category == ProjectsTask && r.value.pool == ProjectTopics
  {
    match d
    case DsaSkill =>
      Some(Track("Data Structures & Algorithms", DsaTask, DsaPool(dsa), "Master ", " with focused practice"))
    case FundamentalsSkill =>
      Some(Track("Computer Science Fundamentals", FundamentalsTask, FundamentalsPool(), "Learn and revise ", ""))
    case ProjectsSkill =>
      Some(Track("Project Building", ProjectsTask, ProjectTopics, "Build and deploy ", ""))
    case ExperienceSkill =>
      None
  }

  // ---------------------------------------------------------------- task selection

  /** The tasks taken for one gap, the hours used afterwards and the next task number. */
  datatype Selection = Selection(tasks: seq<Task>, used: int, nextId: nat)

  /** The task made from a topic of a track. */
  function MakeTask(topic: Topic, tr: Track, p: Priority, id: nat): Task {
    Task(id, topic.title, tr.lead + topic.title + tr.trail, tr.category, p, topic.hours, topic.resources, false)
  }

  /** Takes topics from the front of the pool while the running hours stay within the budget,
      stopping at the first topic that would overflow it. Tasks are numbered consecutively
      from `nextId` and are never resized. */
  function SelectTasks(pool: seq<Topic>, tr: Track, p: Priority, used: int, total: int, nextId: nat): (r: Selection)
    ensures |r.tasks| <= |pool|
    ensures forall i :: 0 <= i < |r.tasks| ==> r.tasks[i] == MakeTask(pool[i], tr, p, nextId + i)
    ensures r.used == used + TaskHours(r.tasks) && r.nextId == nextId + |r.tasks|
    ensures r.tasks != [] ==> r.used <= total
    ensures |r.tasks| < |pool| ==> r.used + pool[|r.tasks|].hours > total
    decreases |pool|
  {
    if pool == [] || used + pool[0].hours > total then Selection([], used, nextId)
    else
      var t := MakeTask(pool[0], tr, p, nextId);
      var rest := SelectTasks(pool[1..], tr, p, used + pool[0].hours, total, nextId + 1);
      assert TaskHours([t] + rest.tasks) == t.hours + TaskHours(rest.tasks) by {
        TaskHoursAppend([t], rest.tasks);
      }
      Selection([t] + rest.tasks, rest.used, rest.nextId)
  }

  // ---------------------------------------------------------------- greedy weeks

  /** How many of the tasks, taken in order, still fit into `room` hours. */
  function Fitting(ts: seq<Task>, room: int): (m: nat)
    ensures m <= |ts|
    decreases |ts|
  {
    if ts != [] && ts[0].hours <= room then 1 + Fitting(ts[1..], room - ts[0].hours) else 0
  }

  /** The tasks counted by `Fitting` fit into the room, and the next one would not. */
  lemma {:induction false} FittingHours(ts: seq<Task>, room: int)
    ensures var m := Fitting(ts, room);
      && (m > 0 ==> TaskHours(ts[..m]) <= room)
      && (m < |ts| ==> TaskHours(ts[..m]) + ts[m].hours > room)
    decreases |ts|
  {
    if ts != [] && ts[0].hours <= room {
      var k := Fitting(ts[1..], room - ts[0].hours);
      FittingHours(ts[1..], room - ts[0].hours);
      assert ts[..k + 1][1..] == ts[1..][..k];
      assert k < |ts| - 1 ==> ts[k + 1] == ts[1..][k];
    }
  }

  /** The number of tasks in the week that starts with `ts[0]`: the first task, then as many
      of the following ones as fit the weekly hours. */
  function WeekLength(ts: seq<Task>, weekly: int): (n: nat)
    requires ts != []
    ensures 1 <= n <= |ts|
  {
    1 + Fitting(ts[1..], weekly - ts[0].hours)
  }

  /** A week is never overfilled unless it holds one task, and the task after it would have
      overfilled it. */
  lemma WeekLengthHours(ts: seq<Task>, weekly: int)
    requires ts != []
    ensures var n := WeekLength(ts, weekly);
      && (n == 1 || TaskHours(ts[..n]) <= weekly)
      && (n < |ts| ==> TaskHours(ts[..n]) + ts[n].hours > weekly)
  {
    var m := Fitting(ts[1..], weekly - ts[0].hours);
    FittingHours(ts[1..], weekly - ts[0].hours);
    assert ts[..m + 1][1..] == ts[1..][..m];
    assert m < |ts| - 1 ==> ts[m + 1] == ts[1..][m];
  }

  /** Weeks of one theme numbered from `first`, each holding tasks whose hours it records,
      within the weekly hours unless it holds a single task, and each one full: the first task
      of the next week would not have fitted. */
  predicate GreedyShaped(ws: seq<Week>, theme: string, weekly: int, first: int) {
    && (forall i :: 0 <= i < |ws| ==>
          && ws[i].number == first + i && ws[i].theme == theme
          && ws[i].tasks != [] && ws[i].hours == TaskHours(ws[i].tasks)
          && (ws[i].hours <= weekly || |ws[i].tasks| == 1))
    && (forall i :: 0 <= i < |ws| - 1 ==> ws[i].hours + ws[i + 1].tasks[0].hours > weekly)
  }

  /** The tasks grouped greedily into weeks of the given theme, numbered from `first`. */
  function GreedyWeeks(ts: seq<Task>, theme: string, weekly: int, first: int): (r: seq<Week>)
    ensures |r| <= |ts| && (r == [] <==> ts == [])
    decreases |ts|
  {
    if ts == [] then []
    else
      var n := WeekLength(ts, weekly);
      [Week(first, theme, ts[..n], TaskHours(ts[..n]))] + GreedyWeeks(ts[n..], theme, weekly, first + 1)
  }

  /** Greedy grouping keeps the tasks and their order: the weeks' tasks, in turn, are the
      tasks, and the first week starts with the first task. */
  lemma {:induction false} GreedyWeeksTasks(ts: seq<Task>, theme: string, weekly: int, first: int)
    ensures var r := GreedyWeeks(ts, theme, weekly, first);
      && AllTasks(r) == ts
      && (r != [] ==> r[0].tasks != [] && r[0].tasks[0] == ts[0])
    decreases |ts|
  {
    if ts != [] {
      var n := WeekLength(ts, weekly);
      var w := Week(first, theme, ts[..n], TaskHours(ts[..n]));
      var rest := GreedyWeeks(ts[n..], theme, weekly, first + 1);
      GreedyWeeksTasks(ts[n..], theme, weekly, first + 1);
      assert ([w] + rest)[1..] == rest;
      assert ts == ts[..n] + ts[n..];
    }
  }

  /** The greedy weeks are shaped as `GreedyShaped` says: one theme, consecutive numbers,
      recorded hours, no overfilled week of several tasks, and every week full. */
  lemma {:induction false} GreedyWeeksShaped(ts: seq<Task>, theme: string, weekly: int, first: int)
    ensures GreedyShaped(GreedyWeeks(ts, theme, weekly, first), theme, weekly, first)
    decreases |ts|
  {
    if ts != [] {
      var n := WeekLength(ts, weekly);
      var w := Week(first, theme, ts[..n], TaskHours(ts[..n]));
      WeekLengthHours(ts, weekly);
      GreedyWeeksTasks(ts[n..], theme, weekly, first + 1);
      GreedyWeeksShaped(ts[n..], theme, weekly, first + 1);
      GreedyCons(w, GreedyWeeks(ts[n..], theme, weekly, first + 1), theme, weekly, first);
    }
  }

  lemma GreedyCons(w: Week, rest: seq<Week>, theme: string, weekly: int, first: int)
    requires GreedyShaped(rest, theme, weekly, first + 1)
    requires w.number == first && w.theme == theme && w.tasks != [] && w.hours == TaskHours(w.tasks)
    requires w.hours <= weekly || |w.tasks| == 1
    requires rest != [] ==> w.hours + rest[0].tasks[0].hours > weekly
    ensures GreedyShaped([w] + rest, theme, weekly, first)
  {
    var ws := [w] + rest;
    assert forall i :: 1 <= i < |ws| ==> ws[i] == rest[i - 1];
  }

  /** The first `n` elements, all of them when there are fewer, none when `n` is not positive. */
  function Take<T>(s: seq<T>, n: int): (r: seq<T>)
    ensures r <= s && |r| == if n <= 0 then 0 else if n < |s| then n else |s|
  {
    if n <= 0 then [] else if n < |s| then s[..n] else s
  }

  lemma TakeAppend<T>(a: seq<T>, b: seq<T>, n: int)
    ensures Take(a + b, n) == if n <= |a| then Take(a, n) else a + Take(b, n - |a|)
  {
    if 0 < n <= |a| {
      assert (a + b)[..n] == a[..n];
    } else if n > |a| && n - |a| < |b| {
      assert (a + b)[..n] == a + b[..n - |a|];
    }
  }

  /** The weeks numbered consecutively from `first`, everything else kept. */
  function Renumber(ws: seq<Week>, first: int): (r: seq<Week>)
    ensures |r| == |ws|
    decreases |ws|
  {
    if ws == [] then [] else [ws[0].(number := first)] + Renumber(ws[1..], first + 1)
  }

  /** Renumbering changes only the numbers: week `i` becomes number `first + i`. */
  lemma {:induction false} RenumberAt(ws: seq<Week>, first: int)
    ensures forall i :: 0 <= i < |ws| ==> Renumber(ws, first)[i] == ws[i].(number := first + i)
    decreases |ws|
  {
    if ws != [] {
      RenumberAt(ws[1..], first + 1);
    }
  }

  lemma RenumberAppend(a: seq<Week>, b: seq<Week>, first: int)
    ensures Renumber(a + b, first) == Renumber(a, first) + Renumber(b, first + |a|)
  {
    RenumberAt(a + b, first);
    RenumberAt(a, first);
    RenumberAt(b, first + |a|);
    assert |Renumber(a + b, first)| == |Renumber(a, first) + Renumber(b, first + |a|)|;
    forall i | 0 <= i < |a| + |b|
      ensures Renumber(a + b, first)[i] == (Renumber(a, first) + Renumber(b, first + |a|))[i]
    {
      if i >= |a| {
        assert (a + b)[i] == b[i - |a|];
      }
    }
  }

  /** Greedy grouping does not depend on where the numbering starts. */
  lemma {:induction false} GreedyRenumber(ts: seq<Task>, theme: string, weekly: int, first: int, other: int)
    ensures GreedyWeeks(ts, theme, weekly, first) == Renumber(GreedyWeeks(ts, theme, weekly, other), first)
    decreases |ts|
  {
    if ts != [] {
      var n := WeekLength(ts, weekly);
      var w := Week(other, theme, ts[..n], TaskHours(ts[..n]));
      var rest := GreedyWeeks(ts[n..], theme, weekly, other + 1);
      GreedyRenumber(ts[n..], theme, weekly, first + 1, other + 1);
      RenumberAppend([w], rest, first);
    }
  }

  // ---------------------------------------------------------------- weekly packing

  /** A week the gap phase produced: some tasks, hours equal to their sum, within the weekly
      hours unless it holds a single task, and not the interview theme. */
  predicate GapWeek(w: Week, weekly: int) {
    && w.tasks != []
    && w.hours == TaskHours(w.tasks)
    && (w.hours <= weekly || |w.tasks| == 1)
    && w.theme != InterviewTheme
  }

  /** Weeks numbered 1, 2, ... in order, none beyond the timeline. */
  predicate Numbered(weeks: seq<Week>, timeline: int) {
    forall i :: 0 <= i < |weeks| ==> weeks[i].number == i + 1 && weeks[i].number <= timeline
  }

  /** Packing state: the weeks so far, the week counter and the open week's tasks and hours. */
  datatype PackState = PackState(weeks: seq<Week>, current: int, open: seq<Task>, openHours: int)

  /** What holds between packing steps: the counter is one past the last week and within the
      timeline, the closed weeks are well formed, and the open week would be too. */
  predicate PackInv(ps: PackState, weekly: int, timeline: int) {
    && ps.current == |ps.weeks| + 1
    && Numbered(ps.weeks, timeline)
    && (forall i :: 0 <= i < |ps.weeks| ==> GapWeek(ps.weeks[i], weekly))
    && ps.openHours == TaskHours(ps.open)
    && (ps.openHours <= weekly || |ps.open| <= 1)
  }

  /** The weeks of a packing state once its open week, if it has tasks, is closed. */
  function WithOpenWeek(ps: PackState, theme: string): seq<Week> {
    ps.weeks + (if ps.open == [] then [] else [Week(ps.current, theme, ps.open, ps.openHours)])
  }

  /** An open week that fits (or holds one task) and that the next task would overfill is a
      whole greedy week. */
  lemma ClosingWeek(o: seq<Task>, ts: seq<Task>, theme: string, weekly: int, first: int)
    requires o != [] && (TaskHours(o) <= weekly || |o| == 1)
    requires ts == [] || TaskHours(o) + ts[0].hours > weekly
    ensures GreedyWeeks(o + ts, theme, weekly, first)
         == [Week(first, theme, o, TaskHours(o))] + GreedyWeeks(ts, theme, weekly, first + 1)
  {
    var s := o + ts;
    var n := WeekLength(s, weekly);
    WeekLengthHours(s, weekly);
    if n < |o| {
      assert s[..n + 1] == s[..n] + [s[n]] && s[..n + 1] <= o;
      TaskHoursAppend(s[..n], [s[n]]);
      TaskHoursPrefix(s[..n + 1], o);
    }
    if n > |o| {
      assert o + [ts[0]] <= s[..n];
      TaskHoursAppend(o, [ts[0]]);
      TaskHoursPrefix(o + [ts[0]], s[..n]);
    }
    assert s[..n] == o && s[n..] == ts;
  }

  /** Greedy packing of one gap's tasks: a task that would push a non-empty open week past
      the weekly hours closes that week first; once the counter passes the timeline the
      remaining tasks are dropped. */
  function Pack(tasks: seq<Task>, theme: string, weekly: int, timeline: int, ps: PackState): (r: PackState)
    requires PackInv(ps, weekly, timeline) && ps.current <= timeline && theme != InterviewTheme
    ensures PackInv(r, weekly, timeline)
    ensures r.open != [] ==> r.current <= timeline
    ensures AllTasks(r.weeks) + r.open <= AllTasks(ps.weeks) + ps.open + tasks
    ensures r.current <= timeline ==> AllTasks(r.weeks) + r.open == AllTasks(ps.weeks) + ps.open + tasks
    ensures |ps.weeks| <= |r.weeks| && r.weeks[..|ps.weeks|] == ps.weeks
    decreases |tasks|
  {
    if tasks == [] then ps
    else
      var t := tasks[0];
      if ps.openHours + t.hours > weekly && |ps.open| > 0 then
        var w := Week(ps.current, theme, ps.open, ps.openHours);
        var weeks := ps.weeks + [w];
        CloseWeek(ps, theme, weekly, timeline);
        if ps.current + 1 > timeline then
          PackState(weeks, ps.current + 1, [], 0)
        else
          ShiftTask(AllTasks(ps.weeks), ps.open, tasks);
          var r := Pack(tasks[1..], theme, weekly, timeline, PackState(weeks, ps.current + 1, [t], t.hours));
          PrefixOfPrefix(ps.weeks, weeks, r.weeks);
          r
      else
        TaskHoursAppend(ps.open, [t]);
        ShiftTask(AllTasks(ps.weeks), ps.open, tasks);
        Pack(tasks[1..], theme, weekly, timeline, PackState(ps.weeks, ps.current, ps.open + [t], ps.openHours + t.hours))
  }

  /** Packing is greedy grouping cut at the timeline: once the open week is closed, the weeks
      are the earlier ones followed by the greedy weeks of the open and new tasks, as many as
      the timeline leaves room for. */
  lemma {:induction false} PackIsGreedy(tasks: seq<Task>, theme: string, weekly: int, timeline: int, ps: PackState)
    requires PackInv(ps, weekly, timeline) && ps.current <= timeline && theme != InterviewTheme
    ensures WithOpenWeek(Pack(tasks, theme, weekly, timeline, ps), theme)
         == ps.weeks + Take(GreedyWeeks(ps.open + tasks, theme, weekly, ps.current), timeline - |ps.weeks|)
    decreases |tasks|
  {
    if tasks == [] {
      PackDone(ps, theme, weekly, timeline);
    } else if ps.openHours + tasks[0].hours > weekly && |ps.open| > 0 {
      CloseWeek(ps, theme, weekly, timeline);
      if ps.current + 1 <= timeline {
        PackIsGreedy(tasks[1..], theme, weekly, timeline, ClosedState(ps, tasks, theme));
      }
      PackClosing(tasks, theme, weekly, timeline, ps);
    } else {
      TaskHoursAppend(ps.open, [tasks[0]]);
      PackIsGreedy(tasks[1..], theme, weekly, timeline, ExtendedState(ps, tasks));
      PackExtending(tasks, theme, weekly, timeline, ps);
    }
  }

  /** The state after closing the open week for the first task, which opens the next week. */
  function ClosedState(ps: PackState, tasks: seq<Task>, theme: string): (r: PackState)
    requires tasks != []
    ensures r.open == [tasks[0]] && r.current == ps.current + 1
  {
    PackState(ps.weeks + [Week(ps.current, theme, ps.open, ps.openHours)], ps.current + 1, [tasks[0]], tasks[0].hours)
  }

  /** The state after adding the first task to the open week. */
  function ExtendedState(ps: PackState, tasks: seq<Task>): (r: PackState)
    requires tasks != []
    ensures r.weeks == ps.weeks && r.open == ps.open + [tasks[0]]
  {
    PackState(ps.weeks, ps.current, ps.open + [tasks[0]], ps.openHours + tasks[0].hours)
  }

  /** The closing step of `PackIsGreedy`, given the claim for the remaining tasks. */
  lemma PackClosing(tasks: seq<Task>, theme: string, weekly: int, timeline: int, ps: PackState)
    requires PackInv(ps, weekly, timeline) && ps.current <= timeline && theme != InterviewTheme
    requires tasks != [] && ps.openHours + tasks[0].hours > weekly && |ps.open| > 0
    requires ps.current + 1 <= timeline ==>
      var next := ClosedState(ps, tasks, theme);
      && PackInv(next, weekly, timeline)
      && WithOpenWeek(Pack(tasks[1..], theme, weekly, timeline, next), theme)
         == next.weeks + Take(GreedyWeeks(next.open + tasks[1..], theme, weekly, next.current), timeline - |next.weeks|)
    ensures WithOpenWeek(Pack(tasks, theme, weekly, timeline, ps), theme)
         == ps.weeks + Take(GreedyWeeks(ps.open + tasks, theme, weekly, ps.current), timeline - |ps.weeks|)
  {
    var w := Week(ps.current, theme, ps.open, ps.openHours);
    var room := timeline - |ps.weeks|;
    var tail := Take(GreedyWeeks(tasks, theme, weekly, ps.current + 1), room - 1);
    CloseThenTake(ps.open, tasks, theme, weekly, ps.current, room, tail);
    PackUnfoldsClosing(tasks, theme, weekly, timeline, ps);
    if ps.current + 1 <= timeline {
      var next := ClosedState(ps, tasks, theme);
      ClosedShift(tasks, theme, weekly, timeline, ps, next, Pack(tasks[1..], theme, weekly, timeline, next), tail);
    } else {
      var r := Pack(tasks, theme, weekly, timeline, ps);
      assert WithOpenWeek(r, theme) == ps.weeks + [w];
    }
  }

  /** After closing week `w`, the weeks packed from the next task on are `w`'s greedy successors. */
  lemma ClosedShift(tasks: seq<Task>, theme: string, weekly: int, timeline: int, ps: PackState, next: PackState, r: PackState,
                    tail: seq<Week>)
    requires tasks != [] && next.open == [tasks[0]] && next.current == ps.current + 1
    requires next.weeks == ps.weeks + [Week(ps.current, theme, ps.open, ps.openHours)]
    requires WithOpenWeek(r, theme)
         == next.weeks + Take(GreedyWeeks(next.open + tasks[1..], theme, weekly, next.current), timeline - |next.weeks|)
    requires tail == Take(GreedyWeeks(tasks, theme, weekly, ps.current + 1), timeline - |ps.weeks| - 1)
    ensures WithOpenWeek(r, theme) == ps.weeks + ([Week(ps.current, theme, ps.open, ps.openHours)] + tail)
  {
    FirstThenRest(tasks);
  }

  /** One closing step of `Pack`: the open week is closed and the counter moves on. */
  lemma PackUnfoldsClosing(tasks: seq<Task>, theme: string, weekly: int, timeline: int, ps: PackState)
    requires PackInv(ps, weekly, timeline) && ps.current <= timeline && theme != InterviewTheme
    requires tasks != [] && ps.openHours + tasks[0].hours > weekly && |ps.open| > 0
    ensures ps.current + 1 > timeline ==>
      Pack(tasks, theme, weekly, timeline, ps)
        == PackState(ps.weeks + [Week(ps.current, theme, ps.open, ps.openHours)], ps.current + 1, [], 0)
    ensures ps.current + 1 <= timeline ==>
      && PackInv(ClosedState(ps, tasks, theme), weekly, timeline)
      && Pack(tasks, theme, weekly, timeline, ps) == Pack(tasks[1..], theme, weekly, timeline, ClosedState(ps, tasks, theme))
  {
    CloseWeek(ps, theme, weekly, timeline);
  }

  /** The extending step of `PackIsGreedy`, given the claim for the remaining tasks. */
  lemma PackExtending(tasks: seq<Task>, theme: string, weekly: int, timeline: int, ps: PackState)
    requires PackInv(ps, weekly, timeline) && ps.current <= timeline && theme != InterviewTheme
    requires tasks != [] && !(ps.openHours + tasks[0].hours > weekly && |ps.open| > 0)
    requires var next := ExtendedState(ps, tasks);
      && PackInv(next, weekly, timeline)
      && WithOpenWeek(Pack(tasks[1..], theme, weekly, timeline, next), theme)
         == next.weeks + Take(GreedyWeeks(next.open + tasks[1..], theme, weekly, next.current), timeline - |next.weeks|)
    ensures WithOpenWeek(Pack(tasks, theme, weekly, timeline, ps), theme)
         == ps.weeks + Take(GreedyWeeks(ps.open + tasks, theme, weekly, ps.current), timeline - |ps.weeks|)
  {
    var next := ExtendedState(ps, tasks);
    PackUnfoldsExtending(tasks, theme, weekly, timeline, ps);
    OpenShift(tasks, theme, weekly, timeline, ps, next, Pack(tasks[1..], theme, weekly, timeline, next));
  }

  /** One extending step of `Pack`: the first task joins the open week. */
  lemma PackUnfoldsExtending(tasks: seq<Task>, theme: string, weekly: int, timeline: int, ps: PackState)
    requires PackInv(ps, weekly, timeline) && ps.current <= timeline && theme != InterviewTheme
    requires tasks != [] && !(ps.openHours + tasks[0].hours > weekly && |ps.open| > 0)
    requires PackInv(ExtendedState(ps, tasks), weekly, timeline)
    ensures Pack(tasks, theme, weekly, timeline, ps) == Pack(tasks[1..], theme, weekly, timeline, ExtendedState(ps, tasks))
  {
  }

  /** Moving the first task into the open week leaves the greedy grouping unchanged. */
  lemma OpenShift(tasks: seq<Task>, theme: string, weekly: int, timeline: int, ps: PackState, next: PackState, r: PackState)
    requires tasks != [] && ps.weeks == next.weeks && next.open == ps.open + [tasks[0]] && next.current == ps.current
    requires WithOpenWeek(r, theme)
         == next.weeks + Take(GreedyWeeks(next.open + tasks[1..], theme, weekly, next.current), timeline - |next.weeks|)
    ensures WithOpenWeek(r, theme)
         == ps.weeks + Take(GreedyWeeks(ps.open + tasks, theme, weekly, ps.current), timeline - |ps.weeks|)
  {
    ShiftedOpen(ps.open, tasks);
  }

  /** A nonempty sequence is its first task followed by the rest. */
  lemma FirstThenRest(tasks: seq<Task>)
    requires tasks != []
    ensures [tasks[0]] + tasks[1..] == tasks
  {
  }

  /** Moving the first task into the open week keeps the tasks in order. */
  lemma ShiftedOpen(o: seq<Task>, tasks: seq<Task>)
    requires tasks != []
    ensures (o + [tasks[0]]) + tasks[1..] == o + tasks
  {
    assert tasks == [tasks[0]] + tasks[1..];
  }

  /** Closing an open week because the next task overfills it yields the first greedy week;
      the weeks that still fit in the timeline follow from the next task on. */
  lemma CloseThenTake(o: seq<Task>, tasks: seq<Task>, theme: string, weekly: int, first: int, room: int, tail: seq<Week>)
    requires o != [] && (TaskHours(o) <= weekly || |o| == 1)
    requires tasks != [] && TaskHours(o) + tasks[0].hours > weekly && room >= 1
    requires tail == Take(GreedyWeeks(tasks, theme, weekly, first + 1), room - 1)
    ensures [Week(first, theme, o, TaskHours(o))] + tail == Take(GreedyWeeks(o + tasks, theme, weekly, first), room)
  {
    var w := Week(first, theme, o, TaskHours(o));
    var rest := GreedyWeeks(tasks, theme, weekly, first + 1);
    ClosingWeek(o, tasks, theme, weekly, first);
    TakeAppend([w], rest, room);
    if room == 1 {
      assert Take([w], room) == [w];
    }
  }

  /** With no tasks left, the open week is the last greedy week. */
  lemma PackDone(ps: PackState, theme: string, weekly: int, timeline: int)
    requires PackInv(ps, weekly, timeline) && ps.current <= timeline
    ensures WithOpenWeek(ps, theme)
         == ps.weeks + Take(GreedyWeeks(ps.open + [], theme, weekly, ps.current), timeline - |ps.weeks|)
  {
    assert ps.open + [] == ps.open;
    if ps.open != [] {
      ClosingWeek(ps.open, [], theme, weekly, ps.current);
    }
  }

  /** Closing a non-empty open week appends a well-formed week holding exactly the open tasks. */
  lemma CloseWeek(ps: PackState, theme: string, weekly: int, timeline: int)
    requires PackInv(ps, weekly, timeline) && ps.current <= timeline && |ps.open| > 0 && theme != InterviewTheme
    ensures var weeks := ps.weeks + [Week(ps.current, theme, ps.open, ps.openHours)];
      && AllTasks(weeks) == AllTasks(ps.weeks) + ps.open
      && PackInv(PackState(weeks, ps.current + 1, [], 0), weekly, timeline)
      && weeks[..|ps.weeks|] == ps.weeks
  {
    var w := Week(ps.current, theme, ps.open, ps.openHours);
    AllTasksAppend(ps.weeks, [w]);
    assert AllTasks([w]) == ps.open;
  }

  /** Moving the next task to the end of the already-seen tasks keeps the concatenation. */
  lemma ShiftTask(done: seq<Task>, open: seq<Task>, tasks: seq<Task>)
    requires tasks != []
    ensures done + open + tasks == done + open + [tasks[0]] + tasks[1..]
    ensures done + open + tasks == done + (open + [tasks[0]]) + tasks[1..]
  {
    assert tasks == [tasks[0]] + tasks[1..];
  }

  /** Closes the open week after the last task, if it has tasks and the counter is within
      the timeline. */
  function Flush(ps: PackState, theme: string, weekly: int, timeline: int): (r: PackState)
    requires PackInv(ps, weekly, timeline) && theme != InterviewTheme
    requires ps.open != [] ==> ps.current <= timeline
    ensures PackInv(r, weekly, timeline) && r.open == []
    ensures AllTasks(r.weeks) == AllTasks(ps.weeks) + ps.open
    ensures |ps.weeks| <= |r.weeks| && r.weeks[..|ps.weeks|] == ps.weeks
    ensures ps.current <= r.current
    ensures ps.open == [] ==> r == ps
    ensures ps.open != [] ==> r.weeks == ps.weeks + [Week(ps.current, theme, ps.open, ps.openHours)]
  {
    if |ps.open| > 0 && ps.current <= timeline then
      CloseWeek(ps, theme, weekly, timeline);
      PackState(ps.weeks + [Week(ps.current, theme, ps.open, ps.openHours)], ps.current + 1, [], 0)
    else
      assert ps.open == [];
      assert AllTasks(ps.weeks) + ps.open == AllTasks(ps.weeks);
      ps
  }

  // ---------------------------------------------------------------- the gap loop

  /** The generator's state between gaps. */
  datatype GenState = GenState(weeks: seq<Week>, current: int, nextId: nat, used: int)

  /** Task numbers strictly increase along the list. */
  predicate IdsIncreasing(ts: seq<Task>) {
    forall i, j :: 0 <= i < j < |ts| ==> ts[i].id < ts[j].id
  }

  /** What holds between gaps: numbered, well-formed weeks with the counter one past the last;
      task numbers increasing and below the next one; no task completed; the hours used stay
      within the budget (or nothing was used) and cover every task placed so far. */
  predicate GenInv(st: GenState, weekly: int, timeline: int, total: int) {
    && st.current == |st.weeks| + 1
    && Numbered(st.weeks, timeline)
    && (forall i :: 0 <= i < |st.weeks| ==> GapWeek(st.weeks[i], weekly))
    && IdsIncreasing(AllTasks(st.weeks))
    && (forall t :: t in AllTasks(st.weeks) ==> t.id < st.nextId && !t.isCompleted)
    && 0 <= st.used && (st.used <= total || st.used == 0)
    && TaskHours(AllTasks(st.weeks)) <= st.used
  }

  /** `after` holds the tasks of `before` followed by a prefix of the selected tasks; all of
      them, with the selection's hours and next task number, while the counter is still within
      the timeline. */
  predicate PlacesSelection(before: GenState, after: GenState, sel: Selection, timeline: int) {
    && AllTasks(before.weeks) <= AllTasks(after.weeks) <= AllTasks(before.weeks) + sel.tasks
    && (after.current <= timeline ==>
          && AllTasks(after.weeks) == AllTasks(before.weeks) + sel.tasks
          && after.used == sel.used && after.nextId == sel.nextId)
  }

  /** The tasks a gap's track selects from the given budget state. */
  function GapSelection(tr: Track, p: Priority, used: int, total: int, nextId: nat): Selection {
    SelectTasks(tr.pool, tr, p, used, total, nextId)
  }

  /** One gap: select its tasks, pack them, close the last week. A gap without a track
      leaves the state as it is. */
  function ProcessGap(g: SkillGap, dsa: real, weekly: int, timeline: int, total: int, st: GenState): (r: GenState)
    requires GenInv(st, weekly, timeline, total) && st.current <= timeline
    ensures GenInv(r, weekly, timeline, total)
    ensures |st.weeks| <= |r.weeks| && r.weeks[..|st.weeks|] == st.weeks
    ensures TrackFor(g.skill, dsa).None? ==> r == st
    ensures TrackFor(g.skill, dsa).Some? ==>
      var tr := TrackFor(g.skill, dsa).value;
      var sel := GapSelection(tr, g.priority, st.used, total, st.nextId);
      PlacesSelection(st, r, sel, timeline) && r.used == sel.used && r.nextId == sel.nextId
  {
    match TrackFor(g.skill, dsa)
    case None => st
    case Some(tr) => RunTrack(tr, g.priority, weekly, timeline, total, st)
  }

  /** The weeks a gap with a track adds are the greedy weeks of its selection, numbered on
      from the counter and cut at the timeline. */
  lemma ProcessGapIsGreedy(g: SkillGap, dsa: real, weekly: int, timeline: int, total: int, st: GenState, tr: Track)
    requires GenInv(st, weekly, timeline, total) && st.current <= timeline
    requires TrackFor(g.skill, dsa) == Some(tr)
    ensures ProcessGap(g, dsa, weekly, timeline, total, st).weeks
         == st.weeks + Take(GreedyWeeks(GapSelection(tr, g.priority, st.used, total, st.nextId).tasks, tr.theme, weekly, st.current),
                            timeline - |st.weeks|)
  {
    RunTrackIsGreedy(tr, g.priority, weekly, timeline, total, st);
  }

  /** The tasks of one track, selected under the budget, packed into weeks and closed. */
  function RunTrack(tr: Track, p: Priority, weekly: int, timeline: int, total: int, st: GenState): (r: GenState)
    requires GenInv(st, weekly, timeline, total) && st.current <= timeline && tr.theme != InterviewTheme
    ensures GenInv(r, weekly, timeline, total)
    ensures |st.weeks| <= |r.weeks| && r.weeks[..|st.weeks|] == st.weeks
    ensures var sel := GapSelection(tr, p, st.used, total, st.nextId);
      PlacesSelection(st, r, sel, timeline) && r.used == sel.used && r.nextId == sel.nextId
  {
    var sel := SelectTasks(tr.pool, tr, p, st.used, total, st.nextId);
    var packed := Pack(sel.tasks, tr.theme, weekly, timeline, PackState(st.weeks, st.current, [], 0));
    var closed := Flush(packed, tr.theme, weekly, timeline);
    RunTrackFacts(tr, p, weekly, timeline, total, st, sel, packed, closed);
    GenState(closed.weeks, closed.current, sel.nextId, sel.used)
  }

  /** The weeks after one track: the earlier weeks, then the greedy weeks of the track's
      selection numbered from the counter, as many as the timeline has room for. */
  lemma RunTrackIsGreedy(tr: Track, p: Priority, weekly: int, timeline: int, total: int, st: GenState)
    requires GenInv(st, weekly, timeline, total) && st.current <= timeline && tr.theme != InterviewTheme
    ensures RunTrack(tr, p, weekly, timeline, total, st).weeks
         == st.weeks + Take(GreedyWeeks(GapSelection(tr, p, st.used, total, st.nextId).tasks, tr.theme, weekly, st.current),
                            timeline - |st.weeks|)
  {
    var sel := SelectTasks(tr.pool, tr, p, st.used, total, st.nextId);
    var packed := Pack(sel.tasks, tr.theme, weekly, timeline, PackState(st.weeks, st.current, [], 0));
    var closed := Flush(packed, tr.theme, weekly, timeline);
    RunTrackGreedy(tr, weekly, timeline, st, sel, packed, closed);
  }

  /** The weeks after one track are the greedy weeks of its selection, cut at the timeline. */
  lemma RunTrackGreedy(tr: Track, weekly: int, timeline: int, st: GenState,
                       sel: Selection, packed: PackState, closed: PackState)
    requires PackInv(PackState(st.weeks, st.current, [], 0), weekly, timeline) && st.current <= timeline
    requires tr.theme != InterviewTheme
    requires packed == Pack(sel.tasks, tr.theme, weekly, timeline, PackState(st.weeks, st.current, [], 0))
    requires closed == Flush(packed, tr.theme, weekly, timeline)
    ensures closed.weeks == st.weeks + Take(GreedyWeeks(sel.tasks, tr.theme, weekly, st.current), timeline - |st.weeks|)
  {
    PackFromEmpty(sel.tasks, tr.theme, weekly, timeline, st.weeks);
    FlushedWeeks(packed, closed, tr.theme);
  }

  /** `PackIsGreedy` from a state with no open week. */
  lemma PackFromEmpty(tasks: seq<Task>, theme: string, weekly: int, timeline: int, weeks: seq<Week>)
    requires PackInv(PackState(weeks, |weeks| + 1, [], 0), weekly, timeline) && |weeks| + 1 <= timeline
    requires theme != InterviewTheme
    ensures WithOpenWeek(Pack(tasks, theme, weekly, timeline, PackState(weeks, |weeks| + 1, [], 0)), theme)
         == weeks + Take(GreedyWeeks(tasks, theme, weekly, |weeks| + 1), timeline - |weeks|)
  {
    var start := PackState(weeks, |weeks| + 1, [], 0);
    PackIsGreedy(tasks, theme, weekly, timeline, start);
    EmptyPrefix(start.open, tasks);
  }

  /** Closing the open week gives the weeks `WithOpenWeek` describes. */
  lemma FlushedWeeks(packed: PackState, closed: PackState, theme: string)
    requires packed.open == [] ==> closed == packed
    requires packed.open != [] ==> closed.weeks == packed.weeks + [Week(packed.current, theme, packed.open, packed.openHours)]
    ensures closed.weeks == WithOpenWeek(packed, theme)
  {
  }

  /** The invariant after one track, from the contracts of selection, packing and closing. */
  lemma RunTrackFacts(tr: Track, p: Priority, weekly: int, timeline: int, total: int, st: GenState,
                      sel: Selection, packed: PackState, closed: PackState)
    requires GenInv(st, weekly, timeline, total) && st.current <= timeline && tr.theme != InterviewTheme
    requires sel == SelectTasks(tr.pool, tr, p, st.used, total, st.nextId)
    requires packed == Pack(sel.tasks, tr.theme, weekly, timeline, PackState(st.weeks, st.current, [], 0))
    requires closed == Flush(packed, tr.theme, weekly, timeline)
    ensures GenInv(GenState(closed.weeks, closed.current, sel.nextId, sel.used), weekly, timeline, total)
    ensures |st.weeks| <= |closed.weeks| && closed.weeks[..|st.weeks|] == st.weeks
    ensures PlacesSelection(st, GenState(closed.weeks, closed.current, sel.nextId, sel.used), sel, timeline)
  {
    assert forall i :: 0 <= i < |sel.tasks| ==> sel.tasks[i].id == st.nextId + i && !sel.tasks[i].isCompleted;
    EmptyOpen(AllTasks(st.weeks), sel.tasks);
    ProcessGapKeepsInv(st, sel, AllTasks(closed.weeks), total);
    PrefixOfPrefix(st.weeks, packed.weeks, closed.weeks);
    AllTasksPrefix(st.weeks, closed.weeks);
  }

  /** The tasks of a prefix of the weeks are a prefix of their tasks. */
  lemma AllTasksPrefix(a: seq<Week>, b: seq<Week>)
    requires |a| <= |b| && b[..|a|] == a
    ensures AllTasks(a) <= AllTasks(b)
  {
    assert b == a + b[|a|..];
    AllTasksAppend(a, b[|a|..]);
  }

  lemma EmptyPrefix(a: seq<Task>, b: seq<Task>)
    requires a == []
    ensures a + b == b
  {
  }

  lemma EmptyOpen(a: seq<Task>, b: seq<Task>)
    ensures a + [] + b == a + b
  {
    assert a + [] == a;
  }

  /** Keeping a prefix of a sequence that keeps a prefix keeps the shorter prefix. */
  lemma PrefixOfPrefix(a: seq<Week>, b: seq<Week>, c: seq<Week>)
    requires |a| <= |b| && b[..|a|] == a
    requires |b| <= |c| && c[..|b|] == b
    ensures |a| <= |c| && c[..|a|] == a
  {
    assert c[..|b|][..|a|] == c[..|a|];
  }

  /** The task-level half of `ProcessGap`'s invariant: whatever the packing keeps is a prefix
      of the old tasks followed by the new selection, and the new selection continues the
      numbering, is uncompleted and is paid for by the hours used. */
  lemma ProcessGapKeepsInv(st: GenState, sel: Selection, placed: seq<Task>, total: int)
    requires IdsIncreasing(AllTasks(st.weeks))
    requires forall t :: t in AllTasks(st.weeks) ==> t.id < st.nextId && !t.isCompleted
    requires 0 <= st.used && (st.used <= total || st.used == 0)
    requires TaskHours(AllTasks(st.weeks)) <= st.used
    requires forall i :: 0 <= i < |sel.tasks| ==> sel.tasks[i].id == st.nextId + i && !sel.tasks[i].isCompleted
    requires sel.used == st.used + TaskHours(sel.tasks) && sel.nextId == st.nextId + |sel.tasks|
    requires sel.tasks != [] ==> sel.used <= total
    requires placed <= AllTasks(st.weeks) + sel.tasks
    ensures IdsIncreasing(placed)
    ensures forall t :: t in placed ==> t.id < sel.nextId && !t.isCompleted
    ensures 0 <= sel.used && (sel.used <= total || sel.used == 0)
    ensures TaskHours(placed) <= sel.used
  {
    var old_ := AllTasks(st.weeks);
    var all := old_ + sel.tasks;
    forall i, j | 0 <= i < j < |all| ensures all[i].id < all[j].id {
      if j < |old_| {
        assert all[i] == old_[i] && all[j] == old_[j];
      } else if i < |old_| {
        assert all[i] == old_[i] && old_[i] in old_;
        assert all[j] == sel.tasks[j - |old_|];
      } else {
        assert all[i] == sel.tasks[i - |old_|] && all[j] == sel.tasks[j - |old_|];
      }
    }
    forall t | t in all ensures t.id < sel.nextId && !t.isCompleted {
      if t !in old_ {
        var k :| 0 <= k < |sel.tasks| && sel.tasks[k] == t;
      }
    }
    assert placed <= all;
    forall i, j | 0 <= i < j < |placed| ensures placed[i].id < placed[j].id {
      assert placed[i] == all[i] && placed[j] == all[j];
    }
    forall t | t in placed ensures t in all {
      var k :| 0 <= k < |placed| && placed[k] == t;
      assert all[k] == t;
    }
    TaskHoursAppend(old_, sel.tasks);
    TaskHoursPrefix(placed, all);
  }

  /** The selection half of the gap loop on its own, ignoring weeks: every gap with a track in
      turn takes its tasks from the budget the earlier gaps left, numbered on from theirs. */
  function Selections(gaps: seq<SkillGap>, dsa: real, used: int, total: int, nextId: nat): (r: Selection)
    ensures r.used == used + TaskHours(r.tasks) && r.nextId == nextId + |r.tasks|
    decreases |gaps|
  {
    if gaps == [] then Selection([], used, nextId)
    else
      match TrackFor(gaps[0].skill, dsa)
      case None => Selections(gaps[1..], dsa, used, total, nextId)
      case Some(tr) =>
        var s := GapSelection(tr, gaps[0].priority, used, total, nextId);
        var rest := Selections(gaps[1..], dsa, s.used, total, s.nextId);
        TaskHoursAppend(s.tasks, rest.tasks);
        Selection(s.tasks + rest.tasks, rest.used, rest.nextId)
  }

  /** The weeks of the gap loop on their own, ignoring the timeline, before numbering: every
      gap with a track adds the greedy weeks of its selection under its theme. */
  function PlannedWeeks(gaps: seq<SkillGap>, dsa: real, weekly: int, used: int, total: int, nextId: nat): (r: seq<Week>)
    ensures AllTasks(r) == Selections(gaps, dsa, used, total, nextId).tasks
    decreases |gaps|
  {
    if gaps == [] then []
    else
      match TrackFor(gaps[0].skill, dsa)
      case None => PlannedWeeks(gaps[1..], dsa, weekly, used, total, nextId)
      case Some(tr) =>
        var s := GapSelection(tr, gaps[0].priority, used, total, nextId);
        var ws := GreedyWeeks(s.tasks, tr.theme, weekly, 0);
        var rest := PlannedWeeks(gaps[1..], dsa, weekly, s.used, total, s.nextId);
        GreedyWeeksTasks(s.tasks, tr.theme, weekly, 0);
        AllTasksAppend(ws, rest);
        ws + rest
  }

  /** The gap loop: stops before a gap once the counter has passed the timeline. The weeks
      hold the earlier tasks followed by a prefix of what `Selections` takes for the gaps, and
      all of it when the loop ends within the timeline. */
  function ProcessGaps(gaps: seq<SkillGap>, dsa: real, weekly: int, timeline: int, total: int, st: GenState): (r: GenState)
    requires GenInv(st, weekly, timeline, total)
    ensures GenInv(r, weekly, timeline, total)
    ensures |st.weeks| <= |r.weeks| && r.weeks[..|st.weeks|] == st.weeks
    ensures st.current <= timeline ==> PlacesSelection(st, r, Selections(gaps, dsa, st.used, total, st.nextId), timeline)
    decreases |gaps|
  {
    if gaps == [] || st.current > timeline then st
    else
      var next := ProcessGap(gaps[0], dsa, weekly, timeline, total, st);
      var r := ProcessGaps(gaps[1..], dsa, weekly, timeline, total, next);
      PrefixOfPrefix(st.weeks, next.weeks, r.weeks);
      ProcessGapsStep(gaps, dsa, weekly, timeline, total, st, next, r);
      r
  }

  /** The gap loop lays out the planned weeks, numbered on from the weeks already there and
      cut at the timeline. */
  lemma {:induction false} ProcessGapsFollowsPlan(gaps: seq<SkillGap>, dsa: real, weekly: int, timeline: int, total: int,
                                                  st: GenState)
    requires GenInv(st, weekly, timeline, total)
    ensures ProcessGaps(gaps, dsa, weekly, timeline, total, st).weeks
         == st.weeks + Take(Renumber(PlannedWeeks(gaps, dsa, weekly, st.used, total, st.nextId), st.current), timeline - |st.weeks|)
    decreases |gaps|
  {
    if gaps == [] || st.current > timeline {
      assert st.weeks + [] == st.weeks;
    } else {
      var next := ProcessGap(gaps[0], dsa, weekly, timeline, total, st);
      ProcessGapsFollowsPlan(gaps[1..], dsa, weekly, timeline, total, next);
      ProcessGapStepped(gaps[0], dsa, weekly, timeline, total, st);
      ProcessGapsPlanned(gaps, dsa, weekly, timeline, total, st, next, ProcessGaps(gaps, dsa, weekly, timeline, total, st));
    }
  }

  /** One step of the gap loop follows the planned weeks: the first gap's greedy weeks, then
      the rest's, all cut at the timeline. */
  lemma ProcessGapsPlanned(gaps: seq<SkillGap>, dsa: real, weekly: int, timeline: int, total: int,
                           st: GenState, next: GenState, r: GenState)
    requires gaps != [] && st.current == |st.weeks| + 1 && st.current <= timeline && next.current == |next.weeks| + 1
    requires GapStepped(gaps[0], dsa, weekly, timeline, total, st, next)
    requires r.weeks == next.weeks + Take(Renumber(PlannedWeeks(gaps[1..], dsa, weekly, next.used, total, next.nextId), next.current),
                                          timeline - |next.weeks|)
    ensures r.weeks == st.weeks + Take(Renumber(PlannedWeeks(gaps, dsa, weekly, st.used, total, st.nextId), st.current),
                                       timeline - |st.weeks|)
  {
    match TrackFor(gaps[0].skill, dsa)
    case None =>
      PlannedWeeksSkip(gaps, dsa, weekly, st.used, total, st.nextId);
    case Some(tr) =>
      var sel := GapSelection(tr, gaps[0].priority, st.used, total, st.nextId);
      PlannedWeeksTrack(gaps, dsa, weekly, st.used, total, st.nextId, tr);
      TrackStep(st, next, r, GreedyWeeks(sel.tasks, tr.theme, weekly, 0),
                PlannedWeeks(gaps[1..], dsa, weekly, sel.used, total, sel.nextId), timeline);
  }

  /** What one step of the gap loop leaves: the same state for a gap without a track; for one
      with a track, its greedy weeks numbered from the counter and cut at the timeline, and the
      budget and numbering after its selection. */
  predicate GapStepped(g: SkillGap, dsa: real, weekly: int, timeline: int, total: int, st: GenState, next: GenState) {
    match TrackFor(g.skill, dsa)
    case None => next == st
    case Some(tr) =>
      var sel := GapSelection(tr, g.priority, st.used, total, st.nextId);
      && next.weeks == st.weeks + Take(Renumber(GreedyWeeks(sel.tasks, tr.theme, weekly, 0), st.current), timeline - |st.weeks|)
      && next.used == sel.used && next.nextId == sel.nextId
  }

  /** `ProcessGap` takes the step `GapStepped` describes. */
  lemma ProcessGapStepped(g: SkillGap, dsa: real, weekly: int, timeline: int, total: int, st: GenState)
    requires GenInv(st, weekly, timeline, total) && st.current <= timeline
    ensures GapStepped(g, dsa, weekly, timeline, total, st, ProcessGap(g, dsa, weekly, timeline, total, st))
  {
    if TrackFor(g.skill, dsa).Some? {
      TrackGapStep(g, dsa, weekly, timeline, total, st, TrackFor(g.skill, dsa).value);
    }
  }

  /** What one gap with a track leaves: its greedy weeks, numbered from the counter and cut at
      the timeline, and the budget and numbering after its selection. */
  lemma TrackGapStep(g: SkillGap, dsa: real, weekly: int, timeline: int, total: int, st: GenState, tr: Track)
    requires GenInv(st, weekly, timeline, total) && st.current <= timeline
    requires TrackFor(g.skill, dsa) == Some(tr)
    ensures var next := ProcessGap(g, dsa, weekly, timeline, total, st);
      var sel := GapSelection(tr, g.priority, st.used, total, st.nextId);
      && next.weeks == st.weeks + Take(Renumber(GreedyWeeks(sel.tasks, tr.theme, weekly, 0), st.current), timeline - |st.weeks|)
      && next.used == sel.used && next.nextId == sel.nextId
  {
    var sel := GapSelection(tr, g.priority, st.used, total, st.nextId);
    ProcessGapIsGreedy(g, dsa, weekly, timeline, total, st, tr);
    GreedyRenumber(sel.tasks, tr.theme, weekly, st.current, 0);
  }

  /** The gap loop step for a gap with a track, on the sequences alone: `ws` are the gap's
      greedy weeks and `rest` the later gaps' planned weeks, both unnumbered. */
  lemma TrackStep(st: GenState, next: GenState, r: GenState, ws: seq<Week>, rest: seq<Week>, timeline: int)
    requires st.current == |st.weeks| + 1 && st.current <= timeline && next.current == |next.weeks| + 1
    requires next.weeks == st.weeks + Take(Renumber(ws, st.current), timeline - |st.weeks|)
    requires r.weeks == next.weeks + Take(Renumber(rest, next.current), timeline - |next.weeks|)
    ensures r.weeks == st.weeks + Take(Renumber(ws + rest, st.current), timeline - |st.weeks|)
  {
    var room := timeline - |st.weeks|;
    var placed := Renumber(ws, st.current);
    RenumberAppend(ws, rest, st.current);
    NextCounter(st, next, placed, room);
    PlannedStep(st.weeks, next.weeks, r.weeks, placed, Renumber(rest, st.current + |ws|),
                Renumber(rest, next.current), room);
  }

  /** The counter after placing a cut run of weeks: it has moved past all of them when they
      all fit. */
  lemma NextCounter(st: GenState, next: GenState, placed: seq<Week>, room: int)
    requires st.current == |st.weeks| + 1 && next.current == |next.weeks| + 1
    requires next.weeks == st.weeks + Take(placed, room)
    ensures |next.weeks| == |st.weeks| + |Take(placed, room)|
    ensures 0 <= |placed| <= room ==> next.current == st.current + |placed|
  {
  }

  /** The planned weeks skip a gap without a track. */
  lemma PlannedWeeksSkip(gaps: seq<SkillGap>, dsa: real, weekly: int, used: int, total: int, nextId: nat)
    requires gaps != [] && TrackFor(gaps[0].skill, dsa).None?
    ensures PlannedWeeks(gaps, dsa, weekly, used, total, nextId) == PlannedWeeks(gaps[1..], dsa, weekly, used, total, nextId)
  {
  }

  /** The planned weeks of a gap with a track start with the greedy weeks of its selection. */
  lemma PlannedWeeksTrack(gaps: seq<SkillGap>, dsa: real, weekly: int, used: int, total: int, nextId: nat, tr: Track)
    requires gaps != [] && TrackFor(gaps[0].skill, dsa) == Some(tr)
    ensures var s := GapSelection(tr, gaps[0].priority, used, total, nextId);
      PlannedWeeks(gaps, dsa, weekly, used, total, nextId)
        == GreedyWeeks(s.tasks, tr.theme, weekly, 0) + PlannedWeeks(gaps[1..], dsa, weekly, s.used, total, s.nextId)
  {
  }

  /** The sequence step of `ProcessGapsPlanned`: after the first gap the weeks hold its cut
      greedy weeks; if they all fit, the rest follow, otherwise the timeline is already full. */
  lemma PlannedStep(before: seq<Week>, mid: seq<Week>, after: seq<Week>, ws: seq<Week>, rest: seq<Week>,
                    later: seq<Week>, room: int)
    requires room >= 1 && mid == before + Take(ws, room)
    requires |ws| <= room ==> later == rest
    requires after == mid + Take(later, room - |Take(ws, room)|)
    ensures after == before + Take(ws + rest, room)
  {
    TakeAppend(ws, rest, room);
    if |ws| > room {
      assert Take(later, 0) == [];
    }
  }

  /** One step of the gap loop keeps the placement: the first gap's selection, then the rest's. */
  lemma ProcessGapsStep(gaps: seq<SkillGap>, dsa: real, weekly: int, timeline: int, total: int,
                        st: GenState, next: GenState, r: GenState)
    requires gaps != [] && GenInv(st, weekly, timeline, total) && st.current <= timeline
    requires next == ProcessGap(gaps[0], dsa, weekly, timeline, total, st)
    requires next.current <= timeline ==>
      PlacesSelection(next, r, Selections(gaps[1..], dsa, next.used, total, next.nextId), timeline)
    requires next.current > timeline ==> r == next
    ensures PlacesSelection(st, r, Selections(gaps, dsa, st.used, total, st.nextId), timeline)
  {
    match TrackFor(gaps[0].skill, dsa)
    case None =>
    case Some(tr) =>
      var s := GapSelection(tr, gaps[0].priority, st.used, total, st.nextId);
      var rest := Selections(gaps[1..], dsa, s.used, total, s.nextId);
      PlacesThen(st, next, r, s, rest, timeline);
  }

  /** Placing one selection and then a second places their concatenation. */
  lemma PlacesThen(st: GenState, next: GenState, r: GenState, s: Selection, rest: Selection, timeline: int)
    requires PlacesSelection(st, next, s, timeline) && next.used == s.used && next.nextId == s.nextId
    requires next.current <= timeline ==> PlacesSelection(next, r, rest, timeline)
    requires next.current > timeline ==> r == next
    ensures PlacesSelection(st, r, Selection(s.tasks + rest.tasks, rest.used, rest.nextId), timeline)
  {
    var before := AllTasks(st.weeks);
    if next.current <= timeline {
      assert before + s.tasks + rest.tasks == before + (s.tasks + rest.tasks);
    } else {
      assert before + s.tasks <= before + (s.tasks + rest.tasks);
    }
  }

  // ---------------------------------------------------------------- the roadmap

  /** The fixed closing week: mock interviews (6 hours, medium) and a resume and LinkedIn
      polish (4 hours, high), numbered `n`, with task numbers `id` and `id + 1`. */
  function InterviewWeek(n: int, id: nat): Week {
    Week(n, InterviewTheme, [
      Task(id, "Mock Interviews", "Practice with peers or platforms like Pramp", SoftSkillsTask, Medium, 6,
           ["Pramp", "Interviewing.io", "Peer Mock Sessions"], false),
      Task(id + 1, "Resume & LinkedIn Polish", "Update resume and LinkedIn with quantified achievements",
           SoftSkillsTask, High, 4, ["Resume Worded", "LinkedIn Learning"], false)
    ], 10)
  }

  /** Gap processing order: stable by priority, high, medium, low. Gaps of the same priority
      keep their relative order. */
  function PrioritizedGaps(gaps: seq<SkillGap>): (r: seq<SkillGap>)
    ensures multiset(r) == multiset(gaps)
    ensures forall i, j :: 0 <= i < j < |r| ==> PriorityRank(r[i].priority) <= PriorityRank(r[j].priority)
    ensures forall k :: KeyFilter(r, Matching.GapRank, k) == KeyFilter(gaps, Matching.GapRank, k)
  {
    var r := Sort(gaps, Matching.GapRank);
    assert forall i, j :: 0 <= i < j < |r| ==> Matching.GapRank(r[i]) <= Matching.GapRank(r[j]);
    assert forall k :: KeyFilter(r, Matching.GapRank, k) == KeyFilter(gaps, Matching.GapRank, k) by {
      forall k ensures KeyFilter(r, Matching.GapRank, k) == KeyFilter(gaps, Matching.GapRank, k) {
        SortStable(gaps, Matching.GapRank, k);
      }
    }
    r
  }

  const InitialState := GenState([], 1, 1, 0)

  /** The weeks of the gap phase. */
  function GapPhase(skills: SkillScores, gaps: seq<SkillGap>, timeline: int, weekly: int): (r: GenState)
    ensures GapPhaseDone(r, Selections(PrioritizedGaps(gaps), skills.dsa, 0, timeline * weekly, 1), timeline, weekly)
  {
    ProcessGaps(PrioritizedGaps(gaps), skills.dsa, weekly, timeline, timeline * weekly, InitialState)
  }

  predicate IsInterviewWeek(w: Week) {
    w.theme == InterviewTheme
  }

  /** The weeks before the interview week, if there is one. */
  function GapWeeks(weeks: seq<Week>): (r: seq<Week>)
    ensures r <= weeks && |weeks| - 1 <= |r|
  {
    if weeks != [] && IsInterviewWeek(weeks[|weeks| - 1]) then weeks[..|weeks| - 1] else weeks
  }

  /** Week numbering and week contents of a generated roadmap. */
  predicate WeeksShaped(r: Roadmap, timeline: int, weekly: int) {
    && r.totalWeeks == |r.weeks|
    && Numbered(r.weeks, timeline)
    && (forall i :: 0 <= i < |r.weeks| ==> r.weeks[i].tasks != [] && r.weeks[i].hours == TaskHours(r.weeks[i].tasks))
    && (forall i :: 0 <= i < |r.weeks| - 1 ==> GapWeek(r.weeks[i], weekly))
  }

  /** The interview week, when present, is the last one and is the fixed week; it is left out
      only when the gap weeks already fill the timeline (or the timeline is empty). */
  predicate InterviewPlaced(r: Roadmap, timeline: int, weekly: int) {
    var n := |r.weeks|;
    && (n > 0 && IsInterviewWeek(r.weeks[n - 1]) ==> r.weeks[n - 1].tasks != [] && r.weeks[n - 1] == InterviewWeek(n, r.weeks[n - 1].tasks[0].id))
    && (n > 0 && !IsInterviewWeek(r.weeks[n - 1]) ==> GapWeek(r.weeks[n - 1], weekly) && n == timeline)
    && (n == 0 ==> timeline <= 0)
  }

  /** Task numbering, completion and the hour budget of a generated roadmap. */
  predicate TasksShaped(r: Roadmap, timeline: int, weekly: int) {
    && IdsIncreasing(AllTasks(r.weeks))
    && (forall t :: t in AllTasks(r.weeks) ==> !t.isCompleted)
    && var h := WeekHours(GapWeeks(r.weeks));
       0 <= h && (h <= timeline * weekly || h == 0)
  }

  /** `generateRoadmap`: the gap phase, then the interview week if the counter is still within
      the timeline, and the constant excluded topics. */
  function Generate(skills: SkillScores, gaps: seq<SkillGap>, timeline: int, weekly: int): (r: Roadmap)
    ensures WeeksShaped(r, timeline, weekly)
    ensures InterviewPlaced(r, timeline, weekly)
    ensures TasksShaped(r, timeline, weekly)
    ensures r.excludedTopics == ExcludedTopics
    ensures var sel := Selections(PrioritizedGaps(gaps), skills.dsa, 0, timeline * weekly, 1);
      var n := |r.weeks|;
      && AllTasks(GapWeeks(r.weeks)) <= sel.tasks
      && (n > 0 && IsInterviewWeek(r.weeks[n - 1]) ==>
            AllTasks(GapWeeks(r.weeks)) == sel.tasks && r.weeks[n - 1] == InterviewWeek(n, sel.nextId))
  {
    Assemble(GapPhase(skills, gaps, timeline, weekly), Selections(PrioritizedGaps(gaps), skills.dsa, 0, timeline * weekly, 1),
             timeline, weekly)
  }

  /** What the gap loop leaves: the invariant, and the placement of the whole selection when the
      timeline has a week at all. */
  predicate GapPhaseDone(st: GenState, sel: Selection, timeline: int, weekly: int) {
    && GenInv(st, weekly, timeline, timeline * weekly)
    && (InitialState.current <= timeline ==> PlacesSelection(InitialState, st, sel, timeline))
  }

  /** The roadmap after the gap loop: the interview week goes after the gap weeks when the
      counter is still within the timeline. */
  function Assemble(st: GenState, sel: Selection, timeline: int, weekly: int): (r: Roadmap)
    requires GapPhaseDone(st, sel, timeline, weekly)
    ensures WeeksShaped(r, timeline, weekly)
    ensures InterviewPlaced(r, timeline, weekly)
    ensures TasksShaped(r, timeline, weekly)
    ensures r.excludedTopics == ExcludedTopics
    ensures var n := |r.weeks|;
      && AllTasks(GapWeeks(r.weeks)) <= sel.tasks
      && (n > 0 && IsInterviewWeek(r.weeks[n - 1]) ==>
            AllTasks(GapWeeks(r.weeks)) == sel.tasks && r.weeks[n - 1] == InterviewWeek(n, sel.nextId))
  {
    var weeks := if st.current <= timeline then st.weeks + [InterviewWeek(st.current, st.nextId)] else st.weeks;
    GenerateFacts(st, weeks, timeline, weekly);
    GenerateSelection(st, weeks, sel, timeline, weekly);
    Roadmap(|weeks|, weeks, ExcludedTopics)
  }

  /** The roadmap's weeks are the planned greedy weeks of the prioritized gaps, followed by the
      interview week when they leave room for it, or else cut at the timeline. */
  lemma GenerateFollowsPlan(skills: SkillScores, gaps: seq<SkillGap>, timeline: int, weekly: int)
    ensures var plan := PlanWeeks(PrioritizedGaps(gaps), skills.dsa, timeline, weekly);
      var sel := Selections(PrioritizedGaps(gaps), skills.dsa, 0, timeline * weekly, 1);
      Generate(skills, gaps, timeline, weekly).weeks
        == if |plan| < timeline then plan + [InterviewWeek(|plan| + 1, sel.nextId)] else Take(plan, timeline)
  {
    var plan := PlanWeeks(PrioritizedGaps(gaps), skills.dsa, timeline, weekly);
    var sel := Selections(PrioritizedGaps(gaps), skills.dsa, 0, timeline * weekly, 1);
    var st := GapPhase(skills, gaps, timeline, weekly);
    GapPhasePlan(skills, gaps, timeline, weekly);
    GenerateWeeks(skills, gaps, timeline, weekly);
    InterviewOrCut(st, Generate(skills, gaps, timeline, weekly).weeks, plan, sel.nextId, timeline);
  }

  /** The generated weeks, from the state the gap loop leaves. */
  lemma GenerateWeeks(skills: SkillScores, gaps: seq<SkillGap>, timeline: int, weekly: int)
    ensures var st := GapPhase(skills, gaps, timeline, weekly);
      Generate(skills, gaps, timeline, weekly).weeks
        == if st.current <= timeline then st.weeks + [InterviewWeek(st.current, st.nextId)] else st.weeks
  {
  }

  /** The weeks the gaps would fill with no timeline: each gap's selection grouped greedily
      into weeks of its theme, the gaps in order, numbered from 1. */
  function PlanWeeks(gaps: seq<SkillGap>, dsa: real, timeline: int, weekly: int): seq<Week> {
    Renumber(PlannedWeeks(gaps, dsa, weekly, 0, timeline * weekly, 1), 1)
  }

  /** After the gap loop the weeks are the plan cut at the timeline, and when the counter is
      still within it the task numbering has reached where `Selections` ends. */
  lemma GapPhasePlan(skills: SkillScores, gaps: seq<SkillGap>, timeline: int, weekly: int)
    ensures var st := GapPhase(skills, gaps, timeline, weekly);
      var plan := PlanWeeks(PrioritizedGaps(gaps), skills.dsa, timeline, weekly);
      var sel := Selections(PrioritizedGaps(gaps), skills.dsa, 0, timeline * weekly, 1);
      && st.current == |st.weeks| + 1 && st.weeks == Take(plan, timeline)
      && (st.current <= timeline ==> st.nextId == sel.nextId)
  {
    var st := GapPhase(skills, gaps, timeline, weekly);
    var sel := Selections(PrioritizedGaps(gaps), skills.dsa, 0, timeline * weekly, 1);
    var plan := PlanWeeks(PrioritizedGaps(gaps), skills.dsa, timeline, weekly);
    ProcessGapsFollowsPlan(PrioritizedGaps(gaps), skills.dsa, weekly, timeline, timeline * weekly, InitialState);
    assert [] + Take(plan, timeline) == Take(plan, timeline);
    if 1 <= timeline {
      assert PlacesSelection(InitialState, st, sel, timeline);
    }
  }

  /** The sequence step of `GenerateFollowsPlan`: weeks that follow the cut plan end with the
      interview week exactly when the plan is shorter than the timeline. */
  lemma InterviewOrCut(st: GenState, weeks: seq<Week>, plan: seq<Week>, nextId: nat, timeline: int)
    requires st.current == |st.weeks| + 1 && st.weeks == Take(plan, timeline)
    requires st.current <= timeline ==> st.nextId == nextId
    requires weeks == if st.current <= timeline then st.weeks + [InterviewWeek(st.current, st.nextId)] else st.weeks
    ensures weeks == if |plan| < timeline then plan + [InterviewWeek(|plan| + 1, nextId)] else Take(plan, timeline)
  {
  }

  /** The generated weeks before the interview week hold a prefix of the selected tasks, all of
      them when the interview week follows. */
  lemma GenerateSelection(st: GenState, weeks: seq<Week>, sel: Selection, timeline: int, weekly: int)
    requires GenInv(st, weekly, timeline, timeline * weekly)
    requires InitialState.current <= timeline ==> PlacesSelection(InitialState, st, sel, timeline)
    requires weeks == if st.current <= timeline then st.weeks + [InterviewWeek(st.current, st.nextId)] else st.weeks
    ensures var n := |weeks|;
      && AllTasks(GapWeeks(weeks)) <= sel.tasks
      && (n > 0 && IsInterviewWeek(weeks[n - 1]) ==>
            AllTasks(GapWeeks(weeks)) == sel.tasks && weeks[n - 1] == InterviewWeek(n, sel.nextId))
  {
    assert AllTasks(InitialState.weeks) == [];
    if InitialState.current <= timeline {
      assert PlacesSelection(InitialState, st, sel, timeline);
      assert [] + sel.tasks == sel.tasks;
    }
    if st.current <= timeline {
      assert GapWeeks(weeks) == st.weeks;
    } else {
      assert GapWeeks(weeks) == st.weeks by {
        if weeks != [] {
          assert GapWeek(weeks[|weeks| - 1], weekly);
        }
      }
    }
  }

  /** A roadmap has at least one week exactly when the timeline does, and never more weeks than
      the timeline. */
  lemma GeneratedLength(skills: SkillScores, gaps: seq<SkillGap>, timeline: int, weekly: int)
    ensures var r := Generate(skills, gaps, timeline, weekly);
      (r.weeks != [] <==> timeline >= 1) && (timeline >= 1 ==> |r.weeks| <= timeline)
  {
    var r := Generate(skills, gaps, timeline, weekly);
    if r.weeks != [] {
      assert r.weeks[|r.weeks| - 1].number == |r.weeks|;
    }
  }

  /** The roadmap-level facts from the gap phase's invariant. */
  lemma GenerateFacts(st: GenState, weeks: seq<Week>, timeline: int, weekly: int)
    requires GenInv(st, weekly, timeline, timeline * weekly)
    requires weeks == if st.current <= timeline then st.weeks + [InterviewWeek(st.current, st.nextId)] else st.weeks
    ensures WeeksShaped(Roadmap(|weeks|, weeks, ExcludedTopics), timeline, weekly)
    ensures InterviewPlaced(Roadmap(|weeks|, weeks, ExcludedTopics), timeline, weekly)
    ensures TasksShaped(Roadmap(|weeks|, weeks, ExcludedTopics), timeline, weekly)
  {
    if st.current <= timeline {
      WithInterviewWeek(st, timeline, weekly);
    } else {
      WithoutInterviewWeek(st, timeline, weekly);
    }
  }

  /** The roadmap facts when the interview week is appended. */
  lemma WithInterviewWeek(st: GenState, timeline: int, weekly: int)
    requires GenInv(st, weekly, timeline, timeline * weekly) && st.current <= timeline
    ensures var weeks := st.weeks + [InterviewWeek(st.current, st.nextId)];
      var r := Roadmap(|weeks|, weeks, ExcludedTopics);
      WeeksShaped(r, timeline, weekly) && InterviewPlaced(r, timeline, weekly) && TasksShaped(r, timeline, weekly)
  {
    var weeks := st.weeks + [InterviewWeek(st.current, st.nextId)];
    var r := Roadmap(|weeks|, weeks, ExcludedTopics);
    InterviewWeekShape(st, timeline, weekly);
    InterviewWeekTasks(st, timeline, weekly);
  }

  /** The interview week's recorded 10 hours are its tasks' 6 + 4. */
  lemma InterviewWeekHours(n: int, id: nat)
    ensures TaskHours(InterviewWeek(n, id).tasks) == InterviewWeek(n, id).hours == 10
  {
    var ts := InterviewWeek(n, id).tasks;
    assert ts[1..][1..] == [];
    assert TaskHours(ts[1..]) == 4;
  }

  lemma InterviewWeekShape(st: GenState, timeline: int, weekly: int)
    requires GenInv(st, weekly, timeline, timeline * weekly) && st.current <= timeline
    ensures var weeks := st.weeks + [InterviewWeek(st.current, st.nextId)];
      var r := Roadmap(|weeks|, weeks, ExcludedTopics);
      WeeksShaped(r, timeline, weekly) && InterviewPlaced(r, timeline, weekly)
  {
    var iw := InterviewWeek(st.current, st.nextId);
    var weeks := st.weeks + [iw];
    InterviewWeekHours(st.current, st.nextId);
    assert forall i :: 0 <= i < |st.weeks| ==> weeks[i] == st.weeks[i];
  }

  lemma InterviewWeekTasks(st: GenState, timeline: int, weekly: int)
    requires GenInv(st, weekly, timeline, timeline * weekly) && st.current <= timeline
    ensures var weeks := st.weeks + [InterviewWeek(st.current, st.nextId)];
      TasksShaped(Roadmap(|weeks|, weeks, ExcludedTopics), timeline, weekly)
  {
    var iw := InterviewWeek(st.current, st.nextId);
    var weeks := st.weeks + [iw];
    assert GapWeeks(weeks) == st.weeks;
    GapWeeksHours(st.weeks, weekly);
    AllTasksAppend(st.weeks, [iw]);
    assert AllTasks([iw]) == iw.tasks;
    InterviewTasksFollow(AllTasks(st.weeks), st.current, st.nextId);
  }

  /** The interview tasks continue an increasing, uncompleted numbering below `next`. */
  lemma InterviewTasksFollow(before: seq<Task>, n: int, next: nat)
    requires IdsIncreasing(before)
    requires forall t :: t in before ==> t.id < next && !t.isCompleted
    ensures IdsIncreasing(before + InterviewWeek(n, next).tasks)
    ensures forall t :: t in before + InterviewWeek(n, next).tasks ==> !t.isCompleted
  {
    var tasks := InterviewWeek(n, next).tasks;
    IdsIncreasingAppend(before, tasks, next);
    forall t | t in before + tasks ensures !t.isCompleted {
      if t !in before {
        assert t in tasks;
      }
    }
  }

  /** Two increasing numberings, the second starting at or above a bound the first stays
      below, concatenate to an increasing numbering. */
  lemma IdsIncreasingAppend(a: seq<Task>, b: seq<Task>, next: int)
    requires IdsIncreasing(a) && IdsIncreasing(b)
    requires forall t :: t in a ==> t.id < next
    requires forall t :: t in b ==> next <= t.id
    ensures IdsIncreasing(a + b)
  {
    var all := a + b;
    forall i, j | 0 <= i < j < |all| ensures all[i].id < all[j].id {
      if j < |a| {
        assert all[i] == a[i] && all[j] == a[j];
      } else if i < |a| {
        assert all[i] == a[i] && a[i] in a;
        assert all[j] == b[j - |a|] && b[j - |a|] in b;
      } else {
        assert all[i] == b[i - |a|] && all[j] == b[j - |a|];
      }
    }
  }

  /** The roadmap facts when the gap weeks already fill the timeline. */
  lemma WithoutInterviewWeek(st: GenState, timeline: int, weekly: int)
    requires GenInv(st, weekly, timeline, timeline * weekly) && st.current > timeline
    ensures var r := Roadmap(|st.weeks|, st.weeks, ExcludedTopics);
      WeeksShaped(r, timeline, weekly) && InterviewPlaced(r, timeline, weekly) && TasksShaped(r, timeline, weekly)
  {
    var n := |st.weeks|;
    if n > 0 {
      assert GapWeek(st.weeks[n - 1], weekly) && st.weeks[n - 1].number == n;
    }
    assert GapWeeks(st.weeks) == st.weeks;
    GapWeeksHours(st.weeks, weekly);
  }

  /** For gap-phase weeks, the recorded week hours add up to the hours of their tasks. */
  lemma {:induction false} GapWeeksHours(weeks: seq<Week>, weekly: int)
    requires forall i :: 0 <= i < |weeks| ==> GapWeek(weeks[i], weekly)
    ensures WeekHours(weeks) == TaskHours(AllTasks(weeks))
  {
    if weeks != [] {
      GapWeeksHours(weeks[1..], weekly);
      TaskHoursAppend(weeks[0].tasks, AllTasks(weeks[1..]));
    }
  }

  // ---------------------------------------------------------------- examples

  /** With no gaps and a timeline of at least one week the roadmap is exactly the interview
      week, numbered 1, with tasks 1 and 2. */
  lemma NoGapsExample(skills: SkillScores, timeline: int, weekly: int)
    requires timeline >= 1
    ensures Generate(skills, [], timeline, weekly).weeks == [InterviewWeek(1, 1)]
    ensures Generate(skills, [], timeline, weekly).totalWeeks == 1
  {
    assert PrioritizedGaps([]) == [];
    assert GapPhase(skills, [], timeline, weekly) == InitialState;
    OnlyInterviewWeek(skills, [], timeline, weekly);
  }

  /** When the gap phase places nothing, the roadmap is the interview week alone. */
  lemma OnlyInterviewWeek(skills: SkillScores, gaps: seq<SkillGap>, timeline: int, weekly: int)
    requires timeline >= 1 && GapPhase(skills, gaps, timeline, weekly) == InitialState
    ensures Generate(skills, gaps, timeline, weekly).weeks == [InterviewWeek(1, 1)]
    ensures Generate(skills, gaps, timeline, weekly).totalWeeks == 1
  {
    var weeks := InitialState.weeks + [InterviewWeek(InitialState.current, InitialState.nextId)];
    assert weeks == [InterviewWeek(1, 1)];
    assert Generate(skills, gaps, timeline, weekly) == Roadmap(|weeks|, weeks, ExcludedTopics);
  }

  /** A timeline of no weeks yields no weeks at all. */
  lemma EmptyTimeline(skills: SkillScores, gaps: seq<SkillGap>, timeline: int, weekly: int)
    requires timeline <= 0
    ensures Generate(skills, gaps, timeline, weekly).weeks == []
  {
  }

  /** Experience gaps contribute nothing: with only experience gaps the roadmap is the
      interview week alone. */
  lemma ExperienceOnlyExample(skills: SkillScores, gaps: seq<SkillGap>, timeline: int, weekly: int)
    requires timeline >= 1
    requires forall i :: 0 <= i < |gaps| ==> gaps[i].skill == ExperienceSkill
    ensures Generate(skills, gaps, timeline, weekly).weeks == [InterviewWeek(1, 1)]
  {
    var sorted := PrioritizedGaps(gaps);
    forall g | g in sorted ensures g.skill == ExperienceSkill {
      assert g in multiset(gaps);
    }
    ExperienceGapsIgnored(sorted, skills.dsa, weekly, timeline, timeline * weekly);
    OnlyInterviewWeek(skills, gaps, timeline, weekly);
  }

  lemma {:induction false} ExperienceGapsIgnored(gaps: seq<SkillGap>, dsa: real, weekly: int, timeline: int, total: int)
    requires timeline >= 1
    requires forall g :: g in gaps ==> g.skill == ExperienceSkill
    ensures ProcessGaps(gaps, dsa, weekly, timeline, total, InitialState) == InitialState
  {
    if gaps != [] {
      assert gaps[0] in gaps;
      assert forall g :: g in gaps[1..] ==> g in gaps;
      ExperienceGapsIgnored(gaps[1..], dsa, weekly, timeline, total);
    }
  }
}
