# Traffic signal scheduling heuristic, modelled in Dafny

The program reads a city: intersections, one-way streets between them, and
cars, each with a route given as a list of street names. It then gives
intersections round-robin schedules of green-light durations. An
intersection with one incoming street schedules that street. Elsewhere the
schedule has one entry per incoming street that some car waits at, or, when
no car waits there, one entry per incoming street. An intersection with no
incoming street gets no schedule. The schedule is built in stages:

1. Scoring. Every street on a car's route except the last one is counted
   once at its end intersection, as pressure (`in_scores`). It also gets a
   position-decayed global score (`all_street_scores`):
   `int((n - p) / n * 2 + 1)`, plus 3 for the first street of the route.
2. One-way pass. An intersection with exactly one incoming street gives
   that street 1 second.
3. Round robin. Every other intersection gets its pressure counts. An
   intersection nothing was scored at gives every incoming street 1 second.
4. Upscaling. The `n_streets / fraction` streets with the best global score
   (stable descending sort) have their weight at their end intersection
   multiplied by a factor.
5. Normalisation. Each schedule's weights are mapped linearly from
   [min, max] of that schedule onto [min_scheduled_time, max_scheduled_time].
   They are then truncated (`int`) or rounded (`round`).
6. Output. The schedule of each intersection with incoming streets is
   listed, sorted by duration, longest first.

The project has two layers.

- Value layer. These modules are pure functions with their lemmas:
  `Network`, `Scoring`, `Assignment`, `Upscaling`, `Normalization`,
  `Output`, and `Pipeline`, which composes the stages. They are supported by
  `Dicts` (insertion-ordered Python dicts as sequences of pairs),
  `StableSort` (Python's stable `sorted(..., reverse=True)` by value) and
  `Arithmetic`.
- Object layer. The class `Solving.Solver` holds the reader's and the
  solver's fields. Its methods run the source's loops and update those
  fields in place. Each method that changes state is proved to leave
  exactly the state the value layer describes. The value layer's lemmas then state what the
  program guarantees: pressure equals the number of scored occurrences, and
  every schedule is non-empty exactly where streets enter. They also state
  that weights stay at least 1 before normalisation, that the output is
  sorted, bounded by [minT, maxT] and headed by maxT, and that every street
  a car waits at is listed at its end intersection. With 1 <= minT <= maxT
  its listed duration is therefore at least one second.

## Model

| member | source | states |
|---|---|---|
| Solving.Solver.constructor | main.py:20-29 | Reading the header count, the street lines and the car lines gives a well-formed graph with no scores or schedules. Its streets, intersections and cars are the value-level `MakeStreets`, `BuiltIntersections` and `ResolveCars`. |
| Solving.Solver.InitializeIntersections | main.py:31-39 | Appends one empty record per intersection id 0..n-1, in id order. |
| Solving.Solver.ReadStreets | main.py:41-57 | Street `i` is the `i`-th line. The name map and the end map are the value-level maps of all streets. Every street id is appended to the `out` list of its start and the `in` list of its end. |
| Solving.Solver.ReadCars | main.py:59-67 | Each car's route is the ids its street names map to, in order. |
| Network.StreetIdsAtSpec | main.py:56-57 | A street id is in an intersection's `in` (`out`) list exactly when the street ends (starts) there. The list is in increasing id order, so no id appears twice. |
| Network.NameIdsSpec | main.py:53 | A name is a key of `street_name_id_pairs` exactly when some street has it. It maps to the last street read with that name. |
| Network.NameIdsUnique | main.py:53 | With unique names, every street's name maps back to its own id. |
| Network.LinkStep | main.py:56-57 | Reading one more street appends its id to the start's `out` list and then to the end's `in` list. |
| Network.LookupStep | main.py:53-54 | Reading one more street adds it to both lookup maps. |
| Network.BuiltGraphOk | main.py:31-67 | Valid street lines yield the graph invariant the solver relies on: ids, endpoints in range, `in`/`out` lists as above, routes over known streets. Nothing is scheduled yet. |
| Solving.Solver.ScoreStreetsInIntersections | main.py:109-121 | The pressure dicts and global scores become the value-level `ScoreCars` of the cars, in order. |
| Solving.Solver.ScoreCarRoute | main.py:110-121 | One car: its route without the last street is scored hop by hop. A route of length at most 1 changes nothing. |
| Solving.Solver.ScoreHopAt | main.py:115-121 | One iteration of the inner loop scores hop `k` of the car with its position's score. |
| Solving.Solver.ScoreOneHop | main.py:116-121 | One hop: pressure +1 at the street's end intersection (key added at 0 when absent), and the hop score added to its global score. |
| Solving.SetDefaultAdd | main.py:117-119 | `if k not in d: d[k] = 0; d[k] += a` is one assignment of the old value (0 when absent) plus `a`. |
| Solving.Solver.IncreaseStreetGlobalScore | main.py:123-132 | The global score of the street grows by the position score, plus 3 when it is the first hop. |
| Scoring.PositionScoreIsFloor | main.py:129-130 | The integer position score equals `int(((n - p) / n) * 2 + 1)` evaluated exactly. |
| Scoring.HopScoreBounds | main.py:129-132 | A position score lies in [1, 3], is 3 only for the first hop, and never grows along a route. The first hop scores 6. |
| Scoring.ScoredHopsSpec | main.py:110-114 | `route_table[:-1]` has max(len - 1, 0) entries: the route's own streets, in order. |
| Scoring.ScoreHopEffect | main.py:116-132 | One hop changes the pressure and global score of its own street only. A global key is present afterwards exactly when it was before or is this street. |
| Scoring.ScoreHopsEffect | main.py:115-121 | After a car's first `k` hops, every street's pressure grows by its number of occurrences among them and its global score by their hop scores. |
| Scoring.ScoreCarsEffect | main.py:109-121 | After all cars, a street's pressure grows by its occurrences over all routes (last streets excluded) and its global score by its total gain. It has a global score exactly when it occurs. |
| Scoring.ScoreHopKeys | main.py:117-125 | One hop appends its street to the global keys, and to the pressure keys of its end intersection, exactly when it is new there. Every other intersection's keys stay as they were. |
| Scoring.ScoreHopsKeys | main.py:116-125 | After a car's first `k` hops the global keys are the old keys followed by the newly scored streets in first-scored order. Each intersection's pressure keys are likewise followed by the new streets ending there. |
| Scoring.ScoreCarsKeys | main.py:109-125 | After all cars, the keys of `all_street_scores` and of every `in_scores` are in first-scored order over all routes. This is the order that breaks ties in both stable sorts. |
| Dicts.AddKeysSpec | main.py:118-119 | The reference key order keeps the old keys in front, holds exactly the old and the assigned keys, and repeats none. |
| Dicts.PutKeys | main.py:119 | Assigning a dict key appends it at the end when it is new and keeps the key order otherwise. |
| Scoring.ScoreHopsPressure | main.py:115-121 | Scoring `k` hops raises the total pressure by exactly `k`. |
| Scoring.ScoreCarsPressure | main.py:109-121 | Total pressure over all intersections grows by the total number of scored hops. |
| Scoring.TallyOkInitially | main.py:31-39 | The empty accumulators satisfy the scoring invariant. |
| Scoring.ScoreHopOk | main.py:116-132 | One hop keeps the invariant (pressure dicts with distinct keys of streets ending there, counts ≥ 1, every globally scored street counted at its end) and changes nothing but pressure. |
| Scoring.ScoreHopsOk | main.py:115-121 | A car's hops keep the scoring invariant and change nothing but pressure. |
| Scoring.ScoreCarsOk | main.py:109-121 | All cars keep the scoring invariant and change nothing but pressure. |
| Solving.Solver.ScheduleOneWayInIntersections | main.py:100-107 | Each intersection becomes the value-level `OneWay` of its old record. |
| Solving.Solver.ScheduleRoundRobin | main.py:134-145 | Each intersection becomes the value-level `RoundRobin` of its old record. |
| Solving.ScheduleFromPressure | main.py:137-141 | The pressure loop assigns each scored street's count under its name, in scoring order. |
| Solving.ScheduleUniform | main.py:142-145 | The fallback loop assigns 1 to each incoming street's name, in `in` order. |
| Assignment.FromPressureExact | main.py:137-141 | With distinct names, filling an empty schedule from the pressure dict copies it entry by entry, in order. |
| Assignment.UniformExact | main.py:142-145 | With distinct ids and unique names, the fallback schedule lists every incoming street once with weight 1. |
| Assignment.AssignSpec | main.py:100-145 | The three branches of assignment: one incoming street gives `{name: 1}`, pressure gives the pressure dict by name, no pressure gives weight 1 per incoming street. The schedule is non-empty exactly when streets enter. All weights are ≥ 1, keys are distinct, and nothing else changes. |
| Assignment.AssignFromPressure | main.py:137-141 | The pressure branch gives a non-empty schedule with weights ≥ 1 and distinct keys. |
| Assignment.AssignUniform | main.py:142-145 | The fallback branch gives weight 1 to every incoming street, and is empty exactly when nothing enters. |
| Assignment.AssignNames | main.py:100-145 | Every schedule key is the name of a street entering the intersection. |
| Assignment.AssignNonEmpty | main.py:100-145 | An intersection with incoming streets, or an existing schedule, ends with a non-empty schedule. |
| Assignment.AssignDistinct | main.py:100-145 | Assignment keeps schedule keys distinct. |
| Assignment.AssignCovers | main.py:137-141 | Every street with pressure at an intersection has a schedule entry there. |
| Assignment.UnscoredStreetStarves | main.py:136-141 | At an intersection with several incoming streets and some pressure, an incoming street that no car scored gets no schedule entry, so it never turns green. |
| Solving.Solver.UpscaleFractionOfBestStreets | main.py:147-162 | The intersections become the value-level `Upscale`: nothing when `n_streets / fraction` is 0, otherwise the selected streets upscaled. |
| Solving.Solver.UpscaleStreets | main.py:156-162 | The loop over the selected streets, best first, is `UpscaleFirst` of all of them. |
| StableSort.SortDescSpec | main.py:152-153 | The sort is a permutation, ordered by value with the largest first, and stable: the entries of each value keep their relative order. |
| StableSort.TopPrefix | main.py:152-154 | No entry outside the first `k` of the sorted list has a larger value than one inside. |
| Upscaling.SelectedIsTop | main.py:152-154 | The selection has min(k, number of scored streets) entries with distinct streets, all taken from the scores. No unselected street scores more than a selected one. |
| Upscaling.UpscaleStep | main.py:160-162 | Upscaling one more selected street multiplies the weight under its name at its end intersection, and the key is present there. |
| Upscaling.UpscaleFirstShape | main.py:156-162 | Upscaling changes only schedule weights, never keys or anything else. |
| Upscaling.UpscaleFirstEffect | main.py:156-162 | Each weight is multiplied by the factor once per time its street was selected. |
| Upscaling.HitsAtMostOnce | main.py:154-162 | With distinct selected streets and unique names, each weight is hit at most once. |
| Upscaling.UpscaleSelected | main.py:147-162 | After upscaling, a weight is multiplied by the factor exactly when its street was selected. |
| Upscaling.ScaledMonotone | main.py:162 | Multiplying a non-negative weight by a factor ≥ 1, any number of times, never lowers it. |
| Upscaling.UpscaleMonotone | main.py:156-162 | With factor ≥ 1, upscaling never lowers a weight and keeps every key. |
| Pipeline.SelectedLookups | main.py:152-162 | Every selected street has a schedule entry at its end intersection, so the multiply finds its key. |
| Solving.Solver.GetMinMaxScheduledSeconds | main.py:175-187 | The scan returns the value-level `Bounds`: minimum and maximum weight, with the minimum moved one below when they coincide. |
| Normalization.MinWeightSpec | main.py:178-182 | The scanned minimum is a weight of the schedule and no weight is smaller. |
| Normalization.MaxWeightSpec | main.py:178-184 | The scanned maximum is a weight of the schedule and no weight is larger. |
| Normalization.BoundsSpec | main.py:175-187 | The bounds satisfy min < max and enclose every weight, and max is attained. The min is attained exactly when the weights are not all equal. |
| Normalization.NormalizedSpec | main.py:189-195 | The linear map sends min to minT and max to maxT. With minT ≤ maxT it is monotone and maps [min, max] into [minT, maxT]. |
| Normalization.NormalizedIdentity | main.py:189-195 | Mapping [minT, maxT] onto itself changes nothing. |
| Normalization.Trunc | main.py:200 | `int(x)` truncates toward zero. |
| Normalization.RoundHalfEven | main.py:198-199 | `round(x)` is within 0.5 of `x`, and ties go to the even integer. |
| Normalization.RoundedSpec | main.py:197-200 | Both roundings are monotone. |
| Normalization.RoundedWhole | main.py:197-200 | Both roundings leave whole numbers unchanged. |
| Normalization.NormalizeScheduleSpec | main.py:164-173 | Normalisation keeps the keys and their order. Every weight lands in [minT, maxT]. The largest weights become maxT, and the smallest become minT when the weights differ. The order of weights is kept. |
| Normalization.NormalizeSingle | main.py:175-195 | A schedule of one street normalises to maxT. |
| Normalization.NormalizedBounds | main.py:164-187 | A normalised schedule spans exactly [minT, maxT] when weights differ and minT < maxT. Otherwise every weight is maxT. |
| Normalization.NormalizeIdempotent | main.py:164-173 | Normalising twice gives the same as normalising once. |
| Solving.Solver.NormalizeSchedules | main.py:164-173 | Every intersection with incoming streets gets its normalised schedule. Others are left alone. |
| Solving.RescaleSchedule | main.py:169-173 | The per-entry loop writes each rescaled, rounded weight back under its own key, in place. |
| Solving.Solver.WriteOutput | main.py:69-82 | The sections are the value-level `Sections`: an id alone, or an id with the schedule sorted longest first. |
| Output.SectionSpec | main.py:69-82 | A section lists the schedule exactly when streets enter. The listing is a stable, descending permutation of the schedule. |
| Solving.Solver.SetSchedules | main.py:94-98 | The intersections become the value-level `SetSchedules`, and the global scores those of scoring every car. |
| Solving.Solver.AssignSchedules | main.py:95-97 | Scoring and both assignment passes give the value-level `Assigned` schedules. |
| Solving.Solver.Solve | main.py:86-92 | The object is left with the value-level `Solved` intersections (schedules set, then normalised) and the global scores of scoring every car. The output is the value-level `Solve` of the graph read. |
| Pipeline.ScoredReady | main.py:109-132 | After scoring, the accumulators satisfy the invariant, only pressure changed, and every intersection is ready for assignment. |
| Pipeline.AssignedSpec | main.py:100-145 | Assignment is the per-intersection `Assign`, and every globally scored street has a schedule entry at its end. |
| Pipeline.AssignedSteps | main.py:95-97 | Each pass's preconditions hold on what the previous one leaves, and the passes compose to `Assigned`. |
| Pipeline.SetSchedulesSteps | main.py:98 | Upscaling what the assignment passes leave is `SetSchedules`, and all its lookups succeed. |
| Pipeline.SetSchedulesShape | main.py:94-98 | Set schedules keep ids, `in` lists and the assigned keys. |
| Pipeline.SetSchedulesSpec | main.py:94-98 | Each intersection's schedule is non-empty exactly when streets enter, with distinct keys, each the name of an incoming street. Every street some car scores has an entry at its end intersection. |
| Pipeline.SetSchedulesPositive | main.py:94-98 | With factor ≥ 1 every weight before normalisation is at least 1. |
| Pipeline.SetSchedulesNonEmpty | main.py:94-98 | Every intersection with incoming streets has a schedule, which `get_min_max_scheduled_seconds` needs. |
| Pipeline.SetSchedulesDistinct | main.py:94-98 | Schedule keys stay distinct. |
| Pipeline.LoneStreetAt | main.py:100-107 | An intersection with one incoming street has that street alone in its schedule. |
| Pipeline.SolveAt | main.py:86-92 | Output section `j` is the sorted, normalised schedule of intersection `j` when streets enter it, its id alone otherwise. |
| Pipeline.ListingAt | main.py:69-82 | A written listing is non-empty and sorted longest first. Its durations lie in [minT, maxT] and the first is maxT. Its names are incoming streets, each once. |
| Pipeline.SolveSpec | main.py:86-92 | One section per intersection, in id order. A listing appears exactly for intersections with incoming streets, and every listing satisfies the listing guarantees above. |
| Pipeline.SolveCovers | main.py:86-92 | Every street some car scores is listed at its end intersection in the output (its duration is bounded by `SolveSpec`). |
| Pipeline.SolveLone | main.py:86-92 | An intersection with one incoming street is listed with that street at maxT. |

## Left out

- File reading and writing and the `print` in `solve` are left out. The header, street lines and car lines arrive as parameters: integer counts, `StreetRecord`s and lists of street names. Output stops at the sections (id, then the `(name, seconds)` lines). Their text formatting is not modelled.
- The street length and a car's start intersection are read but never used by the core, so they are dropped.
- Floating point is modelled by exact rationals. The position score is an integer formula, proved equal to the exact value's truncation. Normalisation divides exactly before `int`/`round`, so float rounding error is not captured.
- `all_street_scores` holds `{'id', 'score'}` records in the source. The model holds the score alone. The record's `id` always equals its key.
- Line 157 compares the score record (a dict) with 0, which is never equal. The skip therefore never fires and the model has no skip. Scores are at least 1 anyway (`Scoring.ScoreCarsOk`).
- Solving.Solver.UpscaleFractionOfBestStreets: requires `fraction > 0`. The source divides by it. A negative fraction (a negative count, and so a slice from the end) is not modelled.
- Solving.Solver.NormalizeSchedules: requires a non-empty schedule wherever streets enter. The source would fail on `None - 1` otherwise. `Pipeline.SetSchedulesNonEmpty` shows that `set_schedules` always provides one.
- Unique street names are not checked by the source. They are a hypothesis of the lemmas that need them (`UniqueNames`), not a precondition of the methods.
- Solving.Solver.ReadStreets: requires street endpoints below the intersection count. The source raises IndexError for an endpoint at or above the count. A negative endpoint indexes from the end of the list in Python (main.py:56-57), so nothing is raised. Endpoints are `nat`s in the model, so negative endpoints cannot be represented.
- Solving.Solver.ReadCars: requires every car's street names to be known. The source would raise KeyError otherwise.
- Solving.Solver.Solve: takes every argument explicitly. The defaults of `solve` (`upscale_fraction=10`, `upscale_factor=2`, `use_round_instead_of_floor=False`, main.py:86-87) are not modelled. The fraction is a `nat` and the factor an `int`, so float-valued arguments are not modelled either. The driver at main.py:203-209 passes only integers.
- `read_input`'s parsing of the header and lines into integers and names is not modelled. The file name prefix fields are not modelled either.
