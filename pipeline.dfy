/** The solver end to end on values (`set_schedules`, then
    `normalize_schedules`, then the sections of `write_output`), and what it
    guarantees about its output. */
module Pipeline {
  import opened Dicts
  import opened Network
  import opened StableSort
  import opened Scoring
  import opened Assignment
  import opened Upscaling
  import opened Normalization
  import opened Output

  /** Scoring every car into empty accumulators. */
  function Scored(n: nat, streets: seq<Street>, ints: seq<Intersection>, cars: seq<Car>): Tally
    requires GraphOk(n, streets, ints, cars)
  {
    ScoreCars(Tally(ints, []), streets, cars)
  }

  /** `schedule_one_way_in_intersections` over all intersections. */
  function OneWayAll(ints: seq<Intersection>, streets: seq<Street>): seq<Intersection>
    requires forall j :: 0 <= j < |ints| ==> RefsOk(ints[j], streets)
  {
    seq(|ints|, j requires 0 <= j < |ints| => OneWay(ints[j], streets))
  }

  /** `schedule_round_robin` over all intersections. */
  function RoundRobinAll(ints: seq<Intersection>, streets: seq<Street>): seq<Intersection>
    requires forall j :: 0 <= j < |ints| ==> RefsOk(ints[j], streets)
  {
    seq(|ints|, j requires 0 <= j < |ints| => RoundRobin(ints[j], streets))
  }

  /** `normalize_schedules`: only intersections with incoming streets. */
  function NormalizeAll(ints: seq<Intersection>, minT: int, maxT: int, useRound: bool): seq<Intersection>
    requires forall j :: 0 <= j < |ints| && |ints[j].incoming| > 0 ==> |ints[j].schedule| > 0
  {
    seq(|ints|, j requires 0 <= j < |ints| =>
      if |ints[j].incoming| > 0
      then ints[j].(schedule := NormalizeSchedule(ints[j].schedule, minT, maxT, useRound))
      else ints[j])
  }

  /** After scoring, the accumulators are well formed, nothing but the
      pressure dicts changed, and every intersection is ready for
      assignment. */
  lemma ScoredReady(n: nat, streets: seq<Street>, ints: seq<Intersection>, cars: seq<Car>)
    requires GraphOk(n, streets, ints, cars) && Unscheduled(ints)
    ensures var t := Scored(n, streets, ints, cars);
      && TallyOk(t, streets)
      && OnlyPressureChanged(ints, t.ints)
      && forall j :: 0 <= j < n ==> ReadyToAssign(t.ints[j], streets)
  {
    var t := Scored(n, streets, ints, cars);
    TallyOkInitially(ints, streets);
    ScoreCarsOk(Tally(ints, []), streets, cars);
    forall j | 0 <= j < n
      ensures ReadyToAssign(t.ints[j], streets)
    {
      StreetIdsAtSpec(streets, j, true);
      var x := t.ints[j];
      assert x.incoming == StreetIdsAt(streets, j, true);
      assert forall i :: 0 <= i < |x.incoming| ==> x.incoming[i] in x.incoming;
      forall i | 0 <= i < |x.inScores|
        ensures x.inScores[i].0 in x.incoming
      {
        assert PressureOk(x.inScores, streets, j);
      }
    }
  }

  /** Both assignment passes over all intersections. */
  function Assigned(n: nat, streets: seq<Street>, ints: seq<Intersection>, cars: seq<Car>): seq<Intersection>
    requires GraphOk(n, streets, ints, cars) && Unscheduled(ints)
  {
    var t := Scored(n, streets, ints, cars);
    ScoredReady(n, streets, ints, cars);
    RoundRobinAll(OneWayAll(t.ints, streets), streets)
  }

  /** Assignment is the per-intersection `Assign`, and every street with a
      global score has a schedule entry at its end intersection. */
  lemma AssignedSpec(n: nat, streets: seq<Street>, ints: seq<Intersection>, cars: seq<Car>)
    requires GraphOk(n, streets, ints, cars) && Unscheduled(ints)
    ensures var t := Scored(n, streets, ints, cars);
      var a := Assigned(n, streets, ints, cars);
      && |a| == n
      && (forall j :: 0 <= j < n ==> ReadyToAssign(t.ints[j], streets) && a[j] == Assign(t.ints[j], streets))
      && Lookups(a, streets, t.global)
  {
    var t := Scored(n, streets, ints, cars);
    var a := Assigned(n, streets, ints, cars);
    ScoredReady(n, streets, ints, cars);
    forall g | 0 <= g < |t.global|
      ensures HasKey(a[streets[t.global[g].0].iEnd].schedule, streets[t.global[g].0].name)
    {
      var s := t.global[g].0;
      var j := streets[s].iEnd;
      var x := t.ints[j];
      var i := Find(x.inScores, s);
      AssignCovers(x, streets, i);
    }
  }

  /** The selected streets are scored streets, so their lookups succeed. */
  lemma SelectedLookups(a: seq<Intersection>, streets: seq<Street>, global: Dict<nat, int>, k: nat)
    requires DistinctKeys(global) && Lookups(a, streets, global)
    ensures Lookups(a, streets, Selected(global, k)) && DistinctKeys(Selected(global, k))
  {
    SelectedIsTop(global, k);
    var top := Selected(global, k);
    forall t | 0 <= t < |top|
      ensures top[t].0 < |streets| && streets[top[t].0].iEnd < |a|
      ensures HasKey(a[streets[top[t].0].iEnd].schedule, streets[top[t].0].name)
    {
      var g :| 0 <= g < |global| && global[g] == top[t];
    }
  }

  /** `set_schedules`: scoring, both assignment passes, then upscaling. */
  function SetSchedules(n: nat, streets: seq<Street>, ints: seq<Intersection>, cars: seq<Car>, fraction: nat, factor: int)
    : seq<Intersection>
    requires GraphOk(n, streets, ints, cars) && Unscheduled(ints) && 0 < fraction
  {
    var t := Scored(n, streets, ints, cars);
    var a := Assigned(n, streets, ints, cars);
    ScoredReady(n, streets, ints, cars);
    AssignedSpec(n, streets, ints, cars);
    SelectedLookups(a, streets, t.global, TopCount(|streets|, fraction));
    Upscale(a, streets, t.global, fraction, factor)
  }

  /** The last pass of `set_schedules`: the streets selected for upscaling
      have entries in the assigned schedules, and upscaling those gives
      `SetSchedules`. */
  lemma SetSchedulesSteps(n: nat, streets: seq<Street>, ints: seq<Intersection>, cars: seq<Car>, fraction: nat, factor: int)
    requires GraphOk(n, streets, ints, cars) && Unscheduled(ints) && 0 < fraction
    ensures var t := Scored(n, streets, ints, cars);
      var a := Assigned(n, streets, ints, cars);
      && Lookups(a, streets, Selected(t.global, TopCount(|streets|, fraction)))
      && Upscale(a, streets, t.global, fraction, factor) == SetSchedules(n, streets, ints, cars, fraction, factor)
  {
    var t := Scored(n, streets, ints, cars);
    ScoredReady(n, streets, ints, cars);
    AssignedSpec(n, streets, ints, cars);
    SelectedLookups(Assigned(n, streets, ints, cars), streets, t.global, TopCount(|streets|, fraction));
  }

  /** The passes before upscaling, one after another, leave the assigned
      schedules: scoring fills the references the assignment passes need. */
  lemma AssignedSteps(n: nat, streets: seq<Street>, ints: seq<Intersection>, cars: seq<Car>)
    requires GraphOk(n, streets, ints, cars) && Unscheduled(ints)
    ensures var t := Scored(n, streets, ints, cars);
      |t.ints| == n && forall j :: 0 <= j < n ==> RefsOk(t.ints[j], streets)
    ensures var t := Scored(n, streets, ints, cars);
      var o := OneWayAll(t.ints, streets);
      && |o| == n
      && (forall j :: 0 <= j < n ==> RefsOk(o[j], streets))
      && RoundRobinAll(o, streets) == Assigned(n, streets, ints, cars)
  {
    ScoredReady(n, streets, ints, cars);
    AssignedSpec(n, streets, ints, cars);
  }

  /** The shape `set_schedules` leaves: one record per intersection, with
      its id and incoming streets kept, and each schedule the assigned one
      with only its weights changed. */
  lemma SetSchedulesShape(n: nat, streets: seq<Street>, ints: seq<Intersection>, cars: seq<Car>, fraction: nat, factor: int)
    requires GraphOk(n, streets, ints, cars) && Unscheduled(ints) && 0 < fraction
    ensures var r := SetSchedules(n, streets, ints, cars, fraction, factor);
      var a := Assigned(n, streets, ints, cars);
      && |r| == |a| == n
      && (forall j :: 0 <= j < n ==>
            r[j].id == j && r[j].incoming == ints[j].incoming && Keys(r[j].schedule) == Keys(a[j].schedule))
  {
    var t := Scored(n, streets, ints, cars);
    var a := Assigned(n, streets, ints, cars);
    ScoredReady(n, streets, ints, cars);
    AssignedSpec(n, streets, ints, cars);
    var k := TopCount(|streets|, fraction);
    var top := Selected(t.global, k);
    SelectedLookups(a, streets, t.global, k);
    var m := if k == 0 then 0 else |top|;
    UpscaleFirstShape(a, streets, top, m, factor);
  }

  /** What `set_schedules` leaves: a schedule exactly where streets enter;
      distinct keys, each the name of a street entering there; every scored
      street listed at its end intersection. */
  lemma SetSchedulesSpec(n: nat, streets: seq<Street>, ints: seq<Intersection>, cars: seq<Car>, fraction: nat, factor: int)
    requires GraphOk(n, streets, ints, cars) && Unscheduled(ints) && UniqueNames(streets) && 0 < fraction
    ensures var r := SetSchedules(n, streets, ints, cars, fraction, factor);
      && |r| == n
      && (forall j :: 0 <= j < n ==> r[j].id == j && r[j].incoming == ints[j].incoming)
      && (forall j :: 0 <= j < n ==> (|r[j].schedule| > 0 <==> |r[j].incoming| > 0))
      && (forall j :: 0 <= j < n ==> DistinctKeys(r[j].schedule))
      && (forall j, i :: 0 <= j < n && 0 <= i < |r[j].schedule| ==>
            exists s :: 0 <= s < |streets| && s in r[j].incoming && streets[s].name == r[j].schedule[i].0)
      && (forall s :: 0 <= s < |streets| && Occurrences(s, cars) > 0 ==>
            HasKey(r[streets[s].iEnd].schedule, streets[s].name))
  {
    var t := Scored(n, streets, ints, cars);
    var a := Assigned(n, streets, ints, cars);
    var r := SetSchedules(n, streets, ints, cars, fraction, factor);
    SetSchedulesShape(n, streets, ints, cars, fraction, factor);
    AssignedSpec(n, streets, ints, cars);
    forall j | 0 <= j < n
      ensures |r[j].schedule| > 0 <==> |r[j].incoming| > 0
      ensures DistinctKeys(r[j].schedule)
      ensures forall i :: 0 <= i < |r[j].schedule| ==>
        exists s :: 0 <= s < |streets| && s in r[j].incoming && streets[s].name == r[j].schedule[i].0
    {
      ScheduleAt(n, streets, ints, cars, r[j].schedule, j);
    }
    forall s | 0 <= s < |streets| && Occurrences(s, cars) > 0
      ensures HasKey(r[streets[s].iEnd].schedule, streets[s].name)
    {
      ScoreCarsEffect(Tally(ints, []), streets, cars, s);
      var j := streets[s].iEnd;
      var g := Find(t.global, s);
      assert HasKey(a[j].schedule, streets[s].name);
      SameKeysHasKey(r[j].schedule, a[j].schedule, streets[s].name);
    }
  }

  /** Any schedule with the keys of the assigned one at `j` is non-empty
      exactly where streets enter, has distinct keys, and names only
      streets entering `j`. */
  lemma ScheduleAt(n: nat, streets: seq<Street>, ints: seq<Intersection>, cars: seq<Car>, sched: Dict<string, int>, j: nat)
    requires GraphOk(n, streets, ints, cars) && Unscheduled(ints) && UniqueNames(streets) && j < n
    requires Keys(sched) == Keys(Assigned(n, streets, ints, cars)[j].schedule)
    ensures |sched| > 0 <==> |ints[j].incoming| > 0
    ensures DistinctKeys(sched)
    ensures forall i :: 0 <= i < |sched| ==>
      exists s :: 0 <= s < |streets| && s in ints[j].incoming && streets[s].name == sched[i].0
  {
    var t := Scored(n, streets, ints, cars);
    var a := Assigned(n, streets, ints, cars);
    ScoredReady(n, streets, ints, cars);
    AssignedSpec(n, streets, ints, cars);
    AssignSpec(t.ints[j], streets);
    AssignNames(t.ints[j], streets);
    SameKeysDistinct(sched, a[j].schedule);
    assert |sched| == |Keys(sched)| == |Keys(a[j].schedule)| == |a[j].schedule|;
    forall i | 0 <= i < |sched|
      ensures exists s :: 0 <= s < |streets| && s in ints[j].incoming && streets[s].name == sched[i].0
    {
      assert sched[i].0 == Keys(sched)[i] == Keys(a[j].schedule)[i] == a[j].schedule[i].0;
    }
  }

  /** With a factor of at least 1, every weight `set_schedules` leaves is
      at least 1. */
  lemma SetSchedulesPositive(n: nat, streets: seq<Street>, ints: seq<Intersection>, cars: seq<Car>, fraction: nat, factor: int)
    requires GraphOk(n, streets, ints, cars) && Unscheduled(ints) && UniqueNames(streets) && 0 < fraction
    requires factor >= 1
    ensures var r := SetSchedules(n, streets, ints, cars, fraction, factor);
      |r| == n && forall j, i :: 0 <= j < n && 0 <= i < |r[j].schedule| ==> r[j].schedule[i].1 >= 1
  {
    var t := Scored(n, streets, ints, cars);
    var a := Assigned(n, streets, ints, cars);
    var r := SetSchedules(n, streets, ints, cars, fraction, factor);
    ScoredReady(n, streets, ints, cars);
    AssignedSpec(n, streets, ints, cars);
    var k := TopCount(|streets|, fraction);
    var top := Selected(t.global, k);
    SelectedLookups(a, streets, t.global, k);
    var m := if k == 0 then 0 else |top|;
    assert r == UpscaleFirst(a, streets, top, m, factor);
    forall j | 0 <= j < n
      ensures DistinctKeys(a[j].schedule)
      ensures forall i :: 0 <= i < |a[j].schedule| ==> a[j].schedule[i].1 >= 1
    {
      AssignSpec(t.ints[j], streets);
    }
    UpscaleMonotone(a, streets, top, m, factor);
  }

  /** Every intersection with incoming streets has a schedule to normalise,
      whatever the street names. */
  lemma SetSchedulesNonEmpty(n: nat, streets: seq<Street>, ints: seq<Intersection>, cars: seq<Car>, fraction: nat, factor: int)
    requires GraphOk(n, streets, ints, cars) && Unscheduled(ints) && 0 < fraction
    ensures var r := SetSchedules(n, streets, ints, cars, fraction, factor);
      forall j :: 0 <= j < |r| && |r[j].incoming| > 0 ==> |r[j].schedule| > 0
  {
    var t := Scored(n, streets, ints, cars);
    var a := Assigned(n, streets, ints, cars);
    var r := SetSchedules(n, streets, ints, cars, fraction, factor);
    SetSchedulesShape(n, streets, ints, cars, fraction, factor);
    AssignedSpec(n, streets, ints, cars);
    ScoredReady(n, streets, ints, cars);
    forall j | 0 <= j < |r| && |r[j].incoming| > 0
      ensures |r[j].schedule| > 0
    {
      AssignNonEmpty(t.ints[j], streets);
      assert |r[j].schedule| == |Keys(r[j].schedule)| == |Keys(a[j].schedule)|;
    }
  }

  /** Every schedule `set_schedules` leaves has distinct keys, whatever the
      street names (Python dict keys are unique). */
  lemma SetSchedulesDistinct(n: nat, streets: seq<Street>, ints: seq<Intersection>, cars: seq<Car>, fraction: nat, factor: int)
    requires GraphOk(n, streets, ints, cars) && Unscheduled(ints) && 0 < fraction
    ensures var r := SetSchedules(n, streets, ints, cars, fraction, factor);
      forall j :: 0 <= j < |r| ==> DistinctKeys(r[j].schedule)
  {
    var t := Scored(n, streets, ints, cars);
    var a := Assigned(n, streets, ints, cars);
    var r := SetSchedules(n, streets, ints, cars, fraction, factor);
    SetSchedulesShape(n, streets, ints, cars, fraction, factor);
    AssignedSpec(n, streets, ints, cars);
    ScoredReady(n, streets, ints, cars);
    forall j | 0 <= j < |r|
      ensures DistinctKeys(r[j].schedule)
    {
      AssignDistinct(t.ints[j], streets);
      SameKeysDistinct(r[j].schedule, a[j].schedule);
    }
  }

  /** The intersections `solve` leaves: the schedules set and then
      normalised to [minT, maxT]. */
  function Solved(n: nat, streets: seq<Street>, ints: seq<Intersection>, cars: seq<Car>,
                  minT: int, maxT: int, fraction: nat, factor: int, useRound: bool): seq<Intersection>
    requires GraphOk(n, streets, ints, cars) && Unscheduled(ints) && 0 < fraction
  {
    var r := SetSchedules(n, streets, ints, cars, fraction, factor);
    SetSchedulesNonEmpty(n, streets, ints, cars, fraction, factor);
    NormalizeAll(r, minT, maxT, useRound)
  }

  /** `solve` without the file: set the schedules, normalise them to
      [minT, maxT] and list the sections of the output. */
  function Solve(n: nat, streets: seq<Street>, ints: seq<Intersection>, cars: seq<Car>,
                 minT: int, maxT: int, fraction: nat, factor: int, useRound: bool): seq<Section>
    requires GraphOk(n, streets, ints, cars) && Unscheduled(ints) && 0 < fraction
  {
    Sections(Solved(n, streets, ints, cars, minT, maxT, fraction, factor, useRound))
  }

  /** The section of intersection `j` is its normalised, sorted schedule
      when streets enter it, its id alone otherwise. */
  lemma SolveAt(n: nat, streets: seq<Street>, ints: seq<Intersection>, cars: seq<Car>,
                minT: int, maxT: int, fraction: nat, factor: int, useRound: bool, j: nat)
    requires GraphOk(n, streets, ints, cars) && Unscheduled(ints) && 0 < fraction && j < n
    ensures var r := SetSchedules(n, streets, ints, cars, fraction, factor);
      && |r| == n && r[j].id == j && r[j].incoming == ints[j].incoming
      && (|ints[j].incoming| > 0 ==> |r[j].schedule| > 0)
    ensures var r := SetSchedules(n, streets, ints, cars, fraction, factor);
      var out := Solve(n, streets, ints, cars, minT, maxT, fraction, factor, useRound);
      && |out| == n
      && out[j] == if |ints[j].incoming| > 0
                   then Listed(j, SortDesc(NormalizeSchedule(r[j].schedule, minT, maxT, useRound)))
                   else Bare(j)
  {
    SetSchedulesShape(n, streets, ints, cars, fraction, factor);
    SetSchedulesNonEmpty(n, streets, ints, cars, fraction, factor);
  }

  /** The output contract, for minT <= maxT and unique street names: one
      section per intersection, in id order; a listing exactly where streets
      enter; each listing non-empty, longest first, every duration within
      [minT, maxT], the first one maxT; every listed name a street entering
      there, each once. */
  lemma SolveSpec(n: nat, streets: seq<Street>, ints: seq<Intersection>, cars: seq<Car>,
                  minT: int, maxT: int, fraction: nat, factor: int, useRound: bool)
    requires GraphOk(n, streets, ints, cars) && Unscheduled(ints) && UniqueNames(streets)
    requires 0 < fraction && minT <= maxT
    ensures var out := Solve(n, streets, ints, cars, minT, maxT, fraction, factor, useRound);
      && |out| == n
      && (forall j :: 0 <= j < n ==> out[j].id == j && (out[j].Listed? <==> |ints[j].incoming| > 0))
      && (forall j :: 0 <= j < n && out[j].Listed? ==> ListingOk(out[j].items, streets, ints[j].incoming, minT, maxT))
  {
    var r := SetSchedules(n, streets, ints, cars, fraction, factor);
    var out := Solve(n, streets, ints, cars, minT, maxT, fraction, factor, useRound);
    SetSchedulesSpec(n, streets, ints, cars, fraction, factor);
    forall j | 0 <= j < n
      ensures out[j].id == j && (out[j].Listed? <==> |ints[j].incoming| > 0)
      ensures out[j].Listed? ==> ListingOk(out[j].items, streets, ints[j].incoming, minT, maxT)
    {
      SolveAt(n, streets, ints, cars, minT, maxT, fraction, factor, useRound, j);
      if |ints[j].incoming| > 0 {
        ListingAt(r[j].schedule, streets, ints[j].incoming, minT, maxT, useRound);
      }
    }
  }

  /** Every street at which some car waits is listed at its end
      intersection. */
  lemma SolveCovers(n: nat, streets: seq<Street>, ints: seq<Intersection>, cars: seq<Car>,
                    minT: int, maxT: int, fraction: nat, factor: int, useRound: bool, s: nat)
    requires GraphOk(n, streets, ints, cars) && Unscheduled(ints) && UniqueNames(streets) && 0 < fraction
    requires s < |streets| && Occurrences(s, cars) > 0
    ensures var out := Solve(n, streets, ints, cars, minT, maxT, fraction, factor, useRound);
      var j := streets[s].iEnd;
      && |out| == n && j < n && out[j].Listed?
      && exists i :: 0 <= i < |out[j].items| && out[j].items[i].0 == streets[s].name
  {
    var r := SetSchedules(n, streets, ints, cars, fraction, factor);
    var j := streets[s].iEnd;
    SetSchedulesSpec(n, streets, ints, cars, fraction, factor);
    SolveAt(n, streets, ints, cars, minT, maxT, fraction, factor, useRound, j);
    var sched := r[j].schedule;
    var k := Find(sched, streets[s].name);
    var norm := NormalizeSchedule(sched, minT, maxT, useRound);
    assert norm[k].0 == streets[s].name;
    SortDescSpec(norm);
    assert norm[k] in multiset(SortDesc(norm));
  }

  /** An intersection with a single incoming street lists that street alone,
      with the longest duration. */
  lemma SolveLone(n: nat, streets: seq<Street>, ints: seq<Intersection>, cars: seq<Car>,
                  minT: int, maxT: int, fraction: nat, factor: int, useRound: bool, j: nat)
    requires GraphOk(n, streets, ints, cars) && Unscheduled(ints) && UniqueNames(streets) && 0 < fraction
    requires j < n && |ints[j].incoming| == 1
    ensures var out := Solve(n, streets, ints, cars, minT, maxT, fraction, factor, useRound);
      && |out| == n && ints[j].incoming[0] < |streets|
      && out[j] == Listed(j, [(streets[ints[j].incoming[0]].name, maxT)])
  {
    var r := SetSchedules(n, streets, ints, cars, fraction, factor);
    LoneStreetAt(n, streets, ints, cars, fraction, factor, j);
    SolveAt(n, streets, ints, cars, minT, maxT, fraction, factor, useRound, j);
    var sched := r[j].schedule;
    assert sched == [(sched[0].0, sched[0].1)];
    NormalizeSingle(sched[0].0, sched[0].1, minT, maxT, useRound);
  }

  /** A listing of the output: non-empty, longest first, durations within
      [minT, maxT] with the first one maxT, each name a street of
      `incoming`, and no name twice. */
  ghost predicate ListingOk(items: Dict<string, int>, streets: seq<Street>, incoming: seq<nat>, minT: int, maxT: int)
  {
    && |items| > 0
    && SortedDesc(items)
    && items[0].1 == maxT
    && (forall i :: 0 <= i < |items| ==> minT <= items[i].1 <= maxT)
    && (forall i :: 0 <= i < |items| ==>
          exists s :: 0 <= s < |streets| && s in incoming && streets[s].name == items[i].0)
    && DistinctKeys(items)
  }

  /** The listing made from one set schedule. */
  lemma ListingAt(sched: Dict<string, int>, streets: seq<Street>, incoming: seq<nat>, minT: int, maxT: int, useRound: bool)
    requires |sched| > 0 && minT <= maxT && DistinctKeys(sched)
    requires forall i :: 0 <= i < |sched| ==>
      exists s :: 0 <= s < |streets| && s in incoming && streets[s].name == sched[i].0
    ensures ListingOk(SortDesc(NormalizeSchedule(sched, minT, maxT, useRound)), streets, incoming, minT, maxT)
  {
    var norm := NormalizeSchedule(sched, minT, maxT, useRound);
    var items := SortDesc(norm);
    assert Keys(norm) == Keys(sched) && (forall i :: 0 <= i < |norm| ==> minT <= norm[i].1 <= maxT)
      && exists im :: 0 <= im < |norm| && norm[im].1 == maxT
    by {
      NormalizeScheduleSpec(sched, minT, maxT, useRound);
      MaxWeightSpec(sched);
      var im :| 0 <= im < |sched| && sched[im].1 == MaxWeight(sched);
      assert norm[im].1 == maxT;
    }
    assert SortedDesc(items) && multiset(items) == multiset(norm) by {
      SortDescSpec(norm);
    }
    ListingHead(norm, items, maxT);
    PermutedEntries(norm, items, sched, streets, incoming, minT, maxT);
    SameKeysDistinct(norm, sched);
    PermutedDistinct(norm, items);
  }

  /** Sorted longest first, a schedule whose longest duration is maxT
      starts with maxT. */
  lemma ListingHead(norm: Dict<string, int>, items: Dict<string, int>, maxT: int)
    requires SortedDesc(items) && multiset(items) == multiset(norm)
    requires forall i :: 0 <= i < |norm| ==> norm[i].1 <= maxT
    requires exists im :: 0 <= im < |norm| && norm[im].1 == maxT
    ensures |items| > 0 && items[0].1 == maxT
  {
    var im :| 0 <= im < |norm| && norm[im].1 == maxT;
    assert norm[im] in multiset(items);
    var g :| 0 <= g < |items| && items[g] == norm[im];
    assert items[0] in multiset(norm);
    var h :| 0 <= h < |norm| && norm[h] == items[0];
  }

  /** A reordering of a rescaled schedule keeps its durations in range and
      its names those of incoming streets. */
  lemma PermutedEntries(norm: Dict<string, int>, items: Dict<string, int>, sched: Dict<string, int>,
                        streets: seq<Street>, incoming: seq<nat>, minT: int, maxT: int)
    requires multiset(items) == multiset(norm) && Keys(norm) == Keys(sched)
    requires forall i :: 0 <= i < |norm| ==> minT <= norm[i].1 <= maxT
    requires forall i :: 0 <= i < |sched| ==>
      exists s :: 0 <= s < |streets| && s in incoming && streets[s].name == sched[i].0
    ensures forall i :: 0 <= i < |items| ==> minT <= items[i].1 <= maxT
    ensures forall i :: 0 <= i < |items| ==>
      exists s :: 0 <= s < |streets| && s in incoming && streets[s].name == items[i].0
  {
    assert |norm| == |Keys(norm)| == |Keys(sched)| == |sched|;
    assert forall i :: 0 <= i < |norm| ==> norm[i].0 == Keys(norm)[i] == Keys(sched)[i] == sched[i].0;
    forall i | 0 <= i < |items|
      ensures minT <= items[i].1 <= maxT
      ensures exists s :: 0 <= s < |streets| && s in incoming && streets[s].name == items[i].0
    {
      assert items[i] in multiset(norm);
      var g :| 0 <= g < |norm| && norm[g] == items[i];
      assert norm[g].0 == sched[g].0;
    }
  }

  /** At an intersection with one incoming street the set schedule is that
      street's name alone. */
  lemma LoneStreetAt(n: nat, streets: seq<Street>, ints: seq<Intersection>, cars: seq<Car>, fraction: nat, factor: int, j: nat)
    requires GraphOk(n, streets, ints, cars) && Unscheduled(ints) && UniqueNames(streets) && 0 < fraction
    requires j < n && |ints[j].incoming| == 1
    ensures ints[j].incoming[0] < |streets|
    ensures var r := SetSchedules(n, streets, ints, cars, fraction, factor);
      |r| == n && |r[j].schedule| == 1 && r[j].schedule[0].0 == streets[ints[j].incoming[0]].name
  {
    StreetIdsAtSpec(streets, j, true);
    assert ints[j].incoming[0] in ints[j].incoming;
    var t := Scored(n, streets, ints, cars);
    var a := Assigned(n, streets, ints, cars);
    var r := SetSchedules(n, streets, ints, cars, fraction, factor);
    SetSchedulesShape(n, streets, ints, cars, fraction, factor);
    AssignedSpec(n, streets, ints, cars);
    ScoredReady(n, streets, ints, cars);
    AssignSpec(t.ints[j], streets);
    assert t.ints[j].incoming == ints[j].incoming;
    assert |r[j].schedule| == |Keys(r[j].schedule)| == |Keys(a[j].schedule)| == 1;
    assert r[j].schedule[0].0 == Keys(r[j].schedule)[0] == Keys(a[j].schedule)[0];
  }
}
