# PlacementPro core, modelled in Dafny

PlacementPro turns a student's onboarding answers into placement advice. The pipeline has four steps:

1. **Scoring** converts the self-assessed levels, problem counts, projects and experiences into scores on a 0–5 scale. These are DSA, CS fundamentals (with an average), projects, experience and a weighted overall score.
2. **Matching** compares the scores with each of ten companies in a constant catalog. For each company it checks the reject rules, computes a fit percentage, lists the skill gaps sorted by priority, estimates preparation weeks and decides a status: recommended, prepare or avoid. The companies are then ranked by fit.
3. **Roadmap generation** turns the gaps into a week-by-week study plan. It draws topics from constant pools within an hour budget, packs them into weeks of bounded hours and closes with an interview-preparation week.
4. **The dashboard** does four things:
   - It aggregates and de-duplicates the gaps of the companies that are not recommended.
   - It derives the timeline and the weekly hours.
   - It toggles task completion.
   - It assembles the "what not to do" advice and the estimated preparation time.

   Its stats grid labels the overall score, counts companies by status and names the primary focus area.

The model is written as pure functions over immutable datatypes. These are its conventions:

- **Numbers.** JavaScript `number` becomes a Dafny `real` for scores, weights and gaps. It becomes an `int` for counts, hours and weeks. `Math.round`, `Math.ceil` and the round-to-one-decimal idiom `Math.round(x * 10) / 10` are defined exactly on reals in `JsMath`.
- **Sorting.** Every `Array.prototype.sort` call is modelled by one generic, stable insertion sort in `StableSort`. That module proves the sort ordered, a permutation, and stable per key.
- **The generator.** `generateRoadmap` is a fold over a generator state: weeks so far, week counter, next task id and hours used. Each inner loop is its own recursive function: topic selection, week packing and the final flush.
- **The generator's reference.** `GreedyWeeks` groups a task list into weeks without any timeline: each week takes the next task and then every following task that still fits the weekly hours. `PlannedWeeks` applies it to each gap's selection in turn. The lemmas prove that the packing loop and the whole generator produce exactly these weeks, renumbered and cut at the timeline.
- **String enumerations.** Levels, skills, priorities, statuses, operators and task categories are closed datatypes. The `|| 0` lookup fallback of the level table is the extra `Unrecognized` level.

Modules:

- `JsMath`: rounding helpers.
- `StableSort`: the shared stable sort.
- `Types`: all records.
- `Scoring` and `Matching`: `src/lib/scoring.ts`.
- `Catalog`: `src/lib/companies.ts`.
- `Topics` and `RoadmapGen`: `src/lib/roadmap.ts`.
- `Dashboard`: the pure parts of `src/app/dashboard/page.tsx`.
- `StatsGrid`: `src/components/dashboard/stats-grid.tsx`.

## Model

| member | source | states |
|---|---|---|
| JsMath.Round | src/lib/scoring.ts:171 | `Math.round` gives the integer within half of its argument, ties going up |
| JsMath.Ceil | src/lib/scoring.ts:210-216 | `Math.ceil` gives the least integer not below its argument |
| JsMath.Round1 | src/lib/scoring.ts:92 | rounding to one decimal gives a multiple of 0.1 within 0.05 of the input |
| JsMath.Round1Monotone | src/lib/scoring.ts:110 | rounding to one decimal never reverses the order of two scores |
| StableSort.Sort | src/lib/scoring.ts:197-200 | the comparator sort returns its input permuted into ascending key order |
| StableSort.SortStable | src/lib/scoring.ts:250-254 | elements with equal keys keep their input order, as ECMAScript's stable sort guarantees |
| StableSort.SortKeepsTieOrder | src/lib/scoring.ts:197-200 | any order the input respects among equal keys survives the sort |
| StableSort.SortHead | src/components/dashboard/stats-grid.tsx:88-89 | the first element of the sorted list has the least key, and it is the earliest input element with that key |
| Scoring.LevelScore | src/lib/scoring.ts:4-15 | the level table maps into 0–5; it gives 0 exactly for "none" and for an unknown level (the `\|\| 0` fallback) |
| Scoring.ProblemBonus | src/lib/scoring.ts:18-22 | the problem bonus lies in 0–1; it is 0 exactly below 50 solved and 1 exactly from 500 |
| Scoring.ProblemBonusMonotone | src/lib/scoring.ts:18-22 | solving more problems never lowers the bonus |
| Scoring.DsaScore | src/lib/scoring.ts:14-25 | the DSA score is level plus bonus, capped at 5; it equals 5 exactly when the sum reaches 5 |
| Scoring.DsaScoreMonotone | src/lib/scoring.ts:14-25 | at a fixed level, more problems never lower the DSA score |
| Scoring.Fundamentals | src/lib/scoring.ts:28-44 | each subject takes its level's score; the average is a quarter of their sum and lies in 0–5 |
| Scoring.ProjectScore | src/lib/scoring.ts:53-67 | one project scores between 1 and 4.25 |
| Scoring.ProjectBonuses | src/lib/scoring.ts:55-65 | a bare basic project scores 1; intermediate complexity adds 1 and advanced 2 over basic; deployment adds 0.5 and a repository 0.25; four or more technologies add 0.5 and fewer add nothing |
| Scoring.ProjectsScore | src/lib/scoring.ts:47-73 | no projects score 0; otherwise the score is the mean project score, in 1–4.25 (so the cap at 5 never binds) |
| Scoring.QualityMultiplier | src/lib/scoring.ts:80-88 | the multiplier is 1.5 exactly when some experience is full-time, 1.2 when the best is an internship, else 1 |
| Scoring.ExperienceScore | src/lib/scoring.ts:76-93 | no experiences score 0; the score is at most 5, a multiple of 0.1, and within 0.05 of the capped months-times-quality value |
| Scoring.ExperienceSaturates | src/lib/scoring.ts:90-92 | 24 or more months of any kind give the full 5 |
| Scoring.OverallScore | src/lib/scoring.ts:96-111 | the overall score is a multiple of 0.1 within 0.05 of the 35/25/25/15 weighted sum, and in 0–5 when its inputs are |
| Scoring.AllScores | src/lib/scoring.ts:114-129 | each part is the profile's own component score (DSA from level and problems, fundamentals from the four subject levels, projects, experience), and the overall score is the rounded weighted sum of those parts; the scores lie in range when durations are non-negative, and the experience and overall scores are multiples of 0.1 |
| Scoring.CapAndNoBonusExample | src/lib/scoring.ts:19-24 | an expert with 600 problems is capped at 5, and all-advanced fundamentals average 4 |
| Scoring.DemoProfileScores | src/lib/demo-data.ts:4-49 | the demo profile scores DSA 3, fundamentals 2.625, projects 2.75, experience 0.8, overall 2.5 |
| Matching.FirstFiring | src/lib/scoring.ts:133-157 | the first rule that fires supplies the message; there is none exactly when no rule fires |
| Matching.CheckRejectRules | src/lib/scoring.ts:132-158 | a company's reject reason is the message of its earliest firing rule, or none when none fires |
| Matching.FitScore | src/lib/scoring.ts:161-172 | the fit percentage is the rounded weighted sum, in 0–100 for valid weights and in-range scores |
| Matching.FitScoreMonotone | src/lib/scoring.ts:161-172 | raising any dimension never lowers the fit percentage |
| Matching.PriorityFor | src/lib/scoring.ts:187 | the priority is high exactly from weight 0.3 and low exactly below 0.2 |
| Matching.PriorityMonotone | src/lib/scoring.ts:187 | a heavier weight never gives a lower priority |
| Matching.CheckGap | src/lib/scoring.ts:179-190 | a dimension yields one gap exactly when its score is below the company minimum, with the rounded values |
| Matching.GapsFor | src/lib/scoring.ts:192-195 | each checked dimension has a gap exactly when it falls short |
| Matching.EmittedGaps | src/lib/scoring.ts:192-195 | the four checks produce the short dimensions, in DSA–fundamentals–projects–experience order |
| Matching.CalculateGaps | src/lib/scoring.ts:175-201 | the result has a gap for a dimension exactly when it is short, one per dimension, ordered by priority with ties in check order |
| Matching.PrepTime | src/lib/scoring.ts:204-221 | the estimate is at least the factor-weighted gap sum and less than one week above it per gap; for non-negative gaps it is 0 exactly when every gap is 0 |
| Matching.PrepTimeAppend | src/lib/scoring.ts:205-220 | the estimate is a sum over the gaps: the estimate of two lists together is the sum of their estimates |
| Matching.PrepTimeSingle | src/lib/scoring.ts:208-218 | one gap contributes the ceiling of its gap times its skill's factor: 4 for DSA, 2 for the fundamentals, 3 for projects, 1 otherwise |
| Matching.PrepTimeRoundsEachGap | src/lib/scoring.ts:207-218 | the ceiling is taken per gap: gaps of 0.1 in DSA and in the fundamentals take 1 + 1 = 2 weeks, not the ceiling of 0.6 |
| Matching.DecideStatus | src/lib/scoring.ts:230-238 | avoid exactly on a truthy reject reason or a fit below 50; recommended exactly when not avoided, fit at least 75 and at most one gap |
| Matching.MatchUserToCompany | src/lib/scoring.ts:224-247 | the match carries the company, its gaps, its fit and the preparation estimate of those gaps, and the status follows the decision rule |
| Matching.FiredRuleMeansAvoid | src/lib/scoring.ts:232-233 | any firing rule with a message makes the company "avoid" |
| Matching.RecommendedMeansStrongFit | src/lib/scoring.ts:234-235 | a recommended company has fit at least 75, at most one gap and no firing rule |
| Matching.MatchAllCompanies | src/lib/scoring.ts:250-254 | the ranking is a permutation of the per-company matches, in non-increasing fit order |
| Matching.MatchAllStable | src/lib/scoring.ts:253 | companies of equal fit keep their catalog order |
| Matching.MatchAllCoversCatalog | src/lib/scoring.ts:250-252 | every company of the catalog appears in the ranking |
| Matching.MatchAllFromCatalog | src/lib/scoring.ts:250-252 | every ranked match is the match of some catalog company |
| Catalog.CatalogWeightsValid | src/lib/companies.ts:3-203 | the catalog has ten companies whose fit weights are non-negative and sum to 1 |
| Catalog.CatalogMinimumsInRange | src/lib/companies.ts:3-203 | every company minimum lies in 0–5 |
| Catalog.CatalogRulesShaped | src/lib/companies.ts:20-23 | every reject rule is a "less than" test on DSA, fundamentals or projects with a non-empty message, its threshold strictly below that dimension's minimum |
| Catalog.CatalogIdsDistinct | src/lib/companies.ts:168-201 | company ids are distinct, and Infosys and Wipro have no reject rules |
| Catalog.FiredRuleMeansGap | src/lib/companies.ts:20-23 | a rule of the catalog's shape that fires always comes with a gap in the same dimension |
| Catalog.CatalogFiredRule | src/lib/companies.ts:20-23 | for a catalog company a firing rule both forces "avoid" and shows up as a gap |
| Catalog.CatalogFitInRange | src/lib/companies.ts:13 | for a catalog company and in-range scores the fit is in 0–100 |
| Catalog.GoogleDsaExample | src/lib/companies.ts:20-23 | a DSA score of 3.5 trips Google's first rule, so Google is "avoid" |
| Topics.DsaPool | src/lib/roadmap.ts:109-115 | the DSA pool by score band: beginner plus two intermediate, intermediate plus two advanced, or advanced |
| Topics.FundamentalsPool | src/lib/roadmap.ts:137-142 | the fundamentals pool is the OS, networks, databases and OOP topics in that order, fourteen in all |
| Topics.ExcludedTopicsContents | src/lib/roadmap.ts:253-256 | the excluded list is the first three short-time topics and the first two low-priority ones |
| RoadmapGen.TrackFor | src/lib/roadmap.ts:103-179 | each gap skill selects its theme ("Data Structures & Algorithms", "Computer Science Fundamentals", "Project Building"), category and pool, none of them the interview theme; experience gaps select nothing |
| RoadmapGen.SelectTasks | src/lib/roadmap.ts:117-132 | topics are taken as the longest pool prefix that fits the hour budget, with consecutive ids, and the hours used are updated |
| RoadmapGen.WeekLengthHours | src/lib/roadmap.ts:184-201 | a greedy week holds more than its first task only when it stays within the weekly hours, and the task after it would overfill it |
| RoadmapGen.GreedyWeeksTasks | src/lib/roadmap.ts:184-201 | greedy grouping keeps every task, in order, and the first week starts with the first task |
| RoadmapGen.GreedyWeeksShaped | src/lib/roadmap.ts:182-213 | the greedy weeks all carry the track's theme, are numbered consecutively, record their tasks' hours, are never overfilled unless they hold one task, and are full: each week plus the next week's first task exceeds the weekly hours |
| RoadmapGen.GreedyRenumber | src/lib/roadmap.ts:186-196 | the grouping does not depend on where the week numbers start |
| RoadmapGen.PackIsGreedy | src/lib/roadmap.ts:182-202 | packing closes a week exactly as greedy grouping does: with the open week closed, the weeks are the earlier ones followed by the greedy weeks of the open and new tasks, numbered from the counter and cut at the timeline |
| RoadmapGen.Pack | src/lib/roadmap.ts:182-202 | packing never overfills a week that holds more than one task and stops at the timeline; the closed weeks and the open week hold the earlier tasks followed by a prefix of the new ones, and all of them while the counter stays within the timeline |
| RoadmapGen.Flush | src/lib/roadmap.ts:204-213 | open tasks become exactly one more week, numbered by the counter, with the track's theme, those tasks and their hours; with no open tasks the state is unchanged; the packing invariant holds and the counter never goes back |
| RoadmapGen.ProcessGap | src/lib/roadmap.ts:97-214 | a gap without a track (experience) leaves the state unchanged; otherwise the weeks gain a prefix of the tasks selected for the gap, all of them while the counter is within the timeline, and the hours used and next task number become the selection's |
| RoadmapGen.RunTrack | src/lib/roadmap.ts:117-213 | one track's pass keeps the generator invariant, appends a prefix of its selected tasks to the weeks (all of them while within the timeline) and takes the selection's hours and next task number |
| RoadmapGen.RunTrackIsGreedy | src/lib/roadmap.ts:117-213 | one track's pass appends the greedy weeks of its selection, numbered from the counter, as many as the timeline has room for |
| RoadmapGen.ProcessGapIsGreedy | src/lib/roadmap.ts:97-213 | a gap with a track appends the greedy weeks of its selection, numbered from the counter and cut at the timeline |
| RoadmapGen.ProcessGaps | src/lib/roadmap.ts:97-214 | the gap loop keeps the generator invariant and only appends weeks; they hold the earlier tasks followed by a prefix of the gaps' selections in order, and, when the loop ends within the timeline, all of them with the hours used and next task number of the last selection |
| RoadmapGen.Selections | src/lib/roadmap.ts:97-179 | taking each gap's tasks in turn under the shared budget uses exactly the selected tasks' hours and numbers them consecutively |
| RoadmapGen.PlannedWeeks | src/lib/roadmap.ts:97-213 | the planned weeks, each gap's selection grouped greedily in turn, hold exactly the selected tasks in order |
| RoadmapGen.ProcessGapsFollowsPlan | src/lib/roadmap.ts:97-214 | the gap loop appends exactly the planned weeks, numbered on from the counter and cut at the timeline |
| RoadmapGen.PrioritizedGaps | src/lib/roadmap.ts:87-90 | the gaps are re-sorted as a permutation in priority order, gaps of equal priority keeping their input order |
| RoadmapGen.Generate | src/lib/roadmap.ts:76-258 | weeks are numbered 1..n within the timeline with recorded hours matching their tasks; ids increase, no task starts completed, gap hours stay in budget; the gap weeks hold a prefix of the tasks selected for the prioritized gaps, all of them when the interview week follows, and the interview week is last, numbered n, with task numbers continuing the selection's |
| RoadmapGen.GenerateFollowsPlan | src/lib/roadmap.ts:76-257 | the roadmap's weeks are the planned weeks numbered from 1, followed by the interview week numbered one past them, its task numbers continuing the selection's, when they leave room in the timeline, and otherwise the planned weeks cut at the timeline |
| RoadmapGen.GeneratedLength | src/lib/roadmap.ts:217-251 | the roadmap is non-empty exactly when the timeline is positive, and never has more weeks than the timeline |
| RoadmapGen.NoGapsExample | src/lib/roadmap.ts:217-245 | with no gaps the roadmap is the single interview week, with tasks 1 and 2 |
| RoadmapGen.EmptyTimeline | src/lib/roadmap.ts:98 | a timeline of zero or fewer weeks gives no weeks at all |
| RoadmapGen.ExperienceOnlyExample | src/lib/roadmap.ts:103-179 | experience gaps add no tasks, so only the interview week remains |
| Dashboard.AggregateGaps | src/app/dashboard/page.tsx:82-84 | a gap is collected exactly when it belongs to a company that is not recommended |
| Dashboard.AggregateGapsAppend | src/app/dashboard/page.tsx:82-84 | aggregation is a flat map: it distributes over concatenation of the match list, so the gaps come match by match in ranking order |
| Dashboard.AggregateGapsSingle | src/app/dashboard/page.tsx:82-84 | one match contributes its gaps unless it is recommended |
| Dashboard.FindIndexIsFirst | src/app/dashboard/page.tsx:86 | `findIndex` returns the first index with the skill, or -1 exactly when there is none |
| Dashboard.UniqueGaps | src/app/dashboard/page.tsx:85-87 | the de-duplicated list keeps each skill's first gap, covers the same skills, keeps first-occurrence order and has at most four entries |
| Dashboard.FirstGapSource | src/app/dashboard/page.tsx:82-87 | the first gap of a dimension in the aggregate is a gap of the earliest non-recommended match that has that dimension |
| Dashboard.TimelineWeeks | src/app/dashboard/page.tsx:88 | the timeline is four weeks per month, with 0 months falling back to 4 months |
| Dashboard.WeeklyHours | src/app/dashboard/page.tsx:89 | the weekly hours are as entered, with 0 falling back to 20 |
| Dashboard.RoadmapGaps | src/app/dashboard/page.tsx:81-87 | the gaps fed to the generator have distinct skills, at most four, each describing some catalog company; every dimension that some non-recommended match falls short in is present, and its gap comes from the first such match in ranking order |
| Dashboard.DashboardRoadmap | src/app/dashboard/page.tsx:80-96 | the dashboard's roadmap never exceeds the derived timeline and is non-empty for a non-negative month count |
| Dashboard.Toggle | src/app/dashboard/page.tsx:100-114 | toggling changes exactly the completion flag of the tasks with the given id, and nothing else |
| Dashboard.ToggleTwice | src/app/dashboard/page.tsx:100-114 | toggling the same task twice restores the roadmap |
| Dashboard.NegativeAdvices | src/app/dashboard/page.tsx:121-155 | no matches give no advice; otherwise the list is the company advices, then the skip advices, then the system-design advice, which is present exactly when DSA and the fundamentals average are both below 3 |
| Dashboard.AvoidMatches | src/app/dashboard/page.tsx:124-126 | a match is kept exactly when its status is avoid |
| Dashboard.AvoidMatchesAppend | src/app/dashboard/page.tsx:124-126 | the avoid filter distributes over concatenation, so it keeps ranking order |
| Dashboard.CompanyAdvices | src/app/dashboard/page.tsx:124-135 | the company advices are, in order, the advice for each of the first two avoid matches (fewer if there are fewer) |
| Dashboard.SkipAdvices | src/app/dashboard/page.tsx:136-145 | without a roadmap there is no skip advice; otherwise, in order, one for each of the first two excluded topics (fewer if there are fewer) |
| Dashboard.EstimatedPrepWeeks | src/app/dashboard/page.tsx:174 | the estimate is at least 4, at least every company's preparation time, and one of them |
| StatsGrid.ScoreLevel | src/components/dashboard/stats-grid.tsx:71-77 | each readiness label corresponds exactly to its score band |
| StatsGrid.ScoreLevelMonotone | src/components/dashboard/stats-grid.tsx:71-77 | a higher score never earns a lower label |
| StatsGrid.CountStatus | src/components/dashboard/stats-grid.tsx:13-14 | a status count is at most the number of matches, and 0 exactly when no match has that status |
| StatsGrid.CountStatusAppend | src/components/dashboard/stats-grid.tsx:13-14 | counting distributes over concatenation of the match list |
| StatsGrid.CountStatusIsCardinality | src/components/dashboard/stats-grid.tsx:13-14 | the count equals the number of positions whose match has the status |
| StatsGrid.StatusCountsPartition | src/components/dashboard/stats-grid.tsx:13-14 | the three status counts add up to the number of matches |
| StatsGrid.PrimaryFocusArea | src/components/dashboard/stats-grid.tsx:79-90 | the primary focus is the lowest-scoring area, the earliest listed among ties |
| StatsGrid.PrimaryFocusIsFirstMinimum | src/components/dashboard/stats-grid.tsx:88-89 | the head of the stable ascending sort is the earliest area of least value |
| StatsGrid.DsaFocusOnTies | src/components/dashboard/stats-grid.tsx:80-89 | DSA is the focus whenever no area scores strictly below it |
| StatsGrid.ExperienceFocusWhenStrictlyLowest | src/components/dashboard/stats-grid.tsx:80-89 | experience, listed last, is the focus when it is strictly lowest |

## Left out

- User interface, React hooks, routing, Firebase authentication and persistence. The model covers only the computations the pages perform.
- The roadmap's `id`, `userId` and `generatedAt` fields. They come from the clock or are constant.
- Task ids are modelled as natural numbers `k`, which stand for the strings `task-k`. Task titles, descriptions and resource lists are carried but stated about only through the topic pools.
- IEEE-754 doubles. Scores, weights and gaps are exact reals, so binary rounding error in sums like `0.35 * dsa` is not modelled.
- Missing or non-numeric form fields. Only the `|| 0` level fallback and the `|| 4` / `|| 20` fallbacks for a zero timeline or zero weekly hours are modelled. An undefined or NaN value is not.
- The company's descriptive fields (tier, interview pattern, logo). They feed no logic.
- The roadmap page `src/app/dashboard/roadmap/page.tsx:65-100`. It repeats the dashboard's aggregation, generation and toggle code, so it is covered by the same `Dashboard` members.
- The matcher takes an arbitrary company list `cs`. The dashboard passes it the constant catalog, whose facts are the `Catalog` lemmas.
- How the advice cards are rendered: icons and colours per advice type. The advice records themselves are modelled, with their titles and reasons.
- Dashboard.FindIndex: its own contract states only that the index is valid and carries the skill. That it is the first such index, and that -1 means absent, is stated by `Dashboard.FindIndexIsFirst`.
- StatsGrid.PrimaryFocusArea: the area is returned as an enumeration. `StatsGrid.PrimaryFocus` maps it to the card's text ("DSA", "CS Core", "Projects", "Experience").
- RoadmapGen.Generate: when the timeline runs out before the interview week, its own contract states only that the gap weeks hold a prefix of the selected tasks. The exact weeks, and so where the cut falls, are stated by `RoadmapGen.GenerateFollowsPlan`.
- Dashboard.DashboardRoadmap: a negative month count, which the form does not produce, gives a negative timeline and hence an empty roadmap. The contract states only the bound and the non-empty case.
- The roadmap generator does not de-duplicate its gaps: a repeated skill draws its pool again under the remaining budget. `RoadmapGen.Selections` takes the repeated skill's pool again in the same way.
- Matching.FitScore: the upper bound of 100 assumes the weights sum to 1 and the scores lie in 0–5. For arbitrary inputs only the rounding relation is stated.
