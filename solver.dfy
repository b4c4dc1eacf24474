/** The solver object: the reader's fields and the passes that update them
    in place, each proved to leave exactly the state the value-level model
    describes. */
module Solving {
  import opened Dicts
  import opened Network
  import opened StableSort
  import opened Scoring
  import opened Assignment
  import opened Upscaling
  import opened Normalization
  import opened Output
  import opened Pipeline

  datatype Option<T> = None | Some(value: T)

  /** `street_intersection_pairs` gives every street's end intersection. */
  ghost predicate EndsKnown(streets: seq<Street>, ends: map<nat, nat>)
  {
    forall s :: 0 <= s < |streets| ==> s in ends && ends[s] == streets[s].iEnd
  }

  class Solver {
    var nIntersections: nat
    var intersections: seq<Intersection>
    var streets: seq<Street>
    var cars: seq<Car>
    /** `street_name_id_pairs` */
    var streetNameIds: map<string, nat>
    /** `street_intersection_pairs` */
    var streetEnds: map<nat, nat>
    var allStreetScores: Dict<nat, int>

    /** What reading the input establishes. */
    ghost predicate Valid()
      reads this
    {
      && GraphOk(nIntersections, streets, intersections, cars)
      && streetNameIds == NameIds(streets)
      && streetEnds == StreetEnds(streets)
    }

    /** Reading an input: the header's intersection count, the street lines
        and the car lines (street names only). */
    constructor (n: nat, recs: seq<StreetRecord>, carLines: seq<seq<string>>)
      requires RecordsOk(n, recs)
      requires forall c, t :: 0 <= c < |carLines| && 0 <= t < |carLines[c]| ==> carLines[c][t] in NameIds(MakeStreets(recs))
      ensures Valid() && Unscheduled(intersections) && allStreetScores == []
      ensures nIntersections == n && streets == MakeStreets(recs)
      ensures intersections == BuiltIntersections(n, streets)
      ensures cars == ResolveCars(carLines, NameIds(streets))
    {
      nIntersections := n;
      intersections := [];
      streets := [];
      cars := [];
      streetNameIds := map[];
      streetEnds := map[];
      allStreetScores := [];
      new;
      InitializeIntersections();
      assert intersections == EmptyIntersections(n);
      ReadStreets(recs);
      assert intersections == BuiltIntersections(n, streets);
      ReadCars(carLines);
      assert forall c, t :: 0 <= c < |cars| && 0 <= t < |cars[c].route| ==> cars[c].route[t] < |recs| by {
        NameIdsSpec(streets);
      }
      BuiltGraphOk(n, recs, cars);
    }

    /** `initialize_intersections`: one empty record per intersection id. */
    method InitializeIntersections()
      modifies this`intersections
      ensures intersections == old(intersections) + EmptyIntersections(nIntersections)
    {
      var i := 0;
      while i < nIntersections
        invariant 0 <= i <= nIntersections
        invariant intersections == old(intersections) + EmptyIntersections(i)
      {
        intersections := intersections + [EmptyIntersection(i)];
        i := i + 1;
      }
    }

    /** `read_streets`: each street line becomes street `i`, is entered in
        both lookup maps, and its id is appended to the outgoing list of its
        start and the incoming list of its end. */
    method ReadStreets(recs: seq<StreetRecord>)
      requires RecordsOk(|intersections|, recs)
      requires streets == [] && streetNameIds == map[] && streetEnds == map[]
      requires forall j :: 0 <= j < |intersections| ==> intersections[j].incoming == [] && intersections[j].outgoing == []
      modifies this`streets, this`streetNameIds, this`streetEnds, this`intersections
      ensures streets == MakeStreets(recs)
      ensures streetNameIds == NameIds(streets) && streetEnds == StreetEnds(streets)
      ensures intersections == Linked(old(intersections), streets)
    {
      ghost var base := intersections;
      assert forall j :: 0 <= j < |base| ==> Linked(base, [])[j] == base[j];
      var i := 0;
      while i < |recs|
        invariant 0 <= i <= |recs|
        invariant streets == MakeStreets(recs[..i])
        invariant streetNameIds == NameIds(streets) && streetEnds == StreetEnds(streets)
        invariant intersections == Linked(base, streets)
      {
        var r := recs[i];
        var st := Street(i, r.name, r.iStart, r.iEnd);
        LinkStep(base, streets, st);
        LookupStep(streets, st);
        MakeStreetsSnoc(recs, i);
        streets := streets + [st];
        streetNameIds := streetNameIds[r.name := i];
        streetEnds := streetEnds[i := r.iEnd];
        var o := intersections[r.iStart];
        intersections := intersections[r.iStart := o.(outgoing := o.outgoing + [i])];
        var x := intersections[r.iEnd];
        intersections := intersections[r.iEnd := x.(incoming := x.incoming + [i])];
        i := i + 1;
      }
      assert recs[..|recs|] == recs;
    }

    /** `read_cars`: each car line becomes a car whose route is the ids of
        the streets it names. */
    method ReadCars(carLines: seq<seq<string>>)
      requires forall c, t :: 0 <= c < |carLines| && 0 <= t < |carLines[c]| ==> carLines[c][t] in streetNameIds
      modifies this`cars
      ensures cars == old(cars) + ResolveCars(carLines, streetNameIds)
    {
      var c := 0;
      while c < |carLines|
        invariant 0 <= c <= |carLines|
        invariant cars == old(cars) + ResolveCars(carLines[..c], streetNameIds)
      {
        cars := cars + [Car(Resolve(carLines[c], streetNameIds))];
        assert carLines[..c + 1] == carLines[..c] + [carLines[c]];
        c := c + 1;
      }
      assert carLines[..|carLines|] == carLines;
    }
  
    /** `score_streets_in_intersections`: every car's scored hops, in order,
        raise their pressure counts and global scores. */
    method ScoreStreetsInIntersections()
      requires StreetsEndIn(streets, |intersections|) && RoutesIn(cars, |streets|) && EndsKnown(streets, streetEnds)
      modifies this`intersections, this`allStreetScores
      ensures Tally(intersections, allStreetScores)
        == ScoreCars(Tally(old(intersections), old(allStreetScores)), streets, cars)
    {
      var allStreets := streets;
      var allCars := cars;
      ghost var t0 := Tally(intersections, allStreetScores);
      var c := 0;
      while c < |allCars|
        invariant 0 <= c <= |allCars|
        invariant |intersections| == |t0.ints|
        invariant Tally(intersections, allStreetScores) == ScoreFirstCars(t0, allStreets, allCars, c)
      {
        ScoreCarRoute(allCars[c].route);
        c := c + 1;
      }
      ScoreFirstCarsPrefix(t0, allStreets, allCars, |allCars|);
      assert allCars[..|allCars|] == allCars;
    }

    /** The body of the outer loop of `score_streets_in_intersections` for
        one car: its route without the last street is scored hop by hop,
        and a car with fewer than two streets scores nothing. */
    method ScoreCarRoute(route: seq<nat>)
      requires StreetsEndIn(streets, |intersections|) && EndsKnown(streets, streetEnds)
      requires forall i :: 0 <= i < |route| ==> route[i] < |streets|
      modifies this`intersections, this`allStreetScores
      ensures Tally(intersections, allStreetScores)
        == ScoreCar(Tally(old(intersections), old(allStreetScores)), streets, route)
    {
      var allStreets := streets;
      var hops := ScoredHops(route);
      var n := |hops|;
      if n == 0 {
        return;
      }
      assert forall i :: 0 <= i < n ==> hops[i] < |allStreets|;
      ghost var before := Tally(intersections, allStreetScores);
      ghost var gains := HopScores(n);
      var k := 0;
      while k < n
        invariant 0 <= k <= n
        invariant |intersections| == |before.ints|
        invariant Tally(intersections, allStreetScores) == ScoreHops(before, allStreets, hops, gains, k)
      {
        ScoreHopAt(hops, k, before);
        k := k + 1;
      }
    }

    /** One iteration of the inner loop: hop `k` of a car's scored hops. */
    method ScoreHopAt(hops: seq<nat>, k: nat, ghost before: Tally)
      requires k < |hops| && StreetsEndIn(streets, |before.ints|) && EndsKnown(streets, streetEnds)
      requires forall i :: 0 <= i < |hops| ==> hops[i] < |streets|
      requires Tally(intersections, allStreetScores) == ScoreHops(before, streets, hops, HopScores(|hops|), k)
      modifies this`intersections, this`allStreetScores
      ensures Tally(intersections, allStreetScores) == ScoreHops(before, streets, hops, HopScores(|hops|), k + 1)
    {
      ghost var gains := HopScores(|hops|);
      ScoreOneHop(hops[k], k, |hops|);
      assert HopScore(k, |hops|) == gains[k];
    }

    /** One pass of that inner loop: hop `k` of `n`, on street `s`, adds 1
        to the pressure count of `s` at the street's end and its hop score to
        the global score of `s`. */
    method ScoreOneHop(s: nat, k: nat, n: nat)
      requires s < |streets| && streets[s].iEnd < |intersections| && EndsKnown(streets, streetEnds)
      requires k < n
      modifies this`intersections, this`allStreetScores
      ensures Tally(intersections, allStreetScores)
        == ScoreHop(Tally(old(intersections), old(allStreetScores)), streets, s, HopScore(k, n))
    {
      var j := streetEnds[s];
      var x := intersections[j];
      var d := SetDefaultAdd(x.inScores, s, 1);
      intersections := intersections[j := x.(inScores := d)];
      IncreaseStreetGlobalScore(s, k, n);
    }

    /** `increase_street_global_score`: the street's global score (0 when
        it has none yet) grows by the hop's position score, and by 3 more for
        the first hop. */
    method IncreaseStreetGlobalScore(s: nat, loopId: nat, n: nat)
      requires loopId < n
      modifies this`allStreetScores
      ensures allStreetScores == Put(old(allStreetScores), s, GetOr(old(allStreetScores), s, 0) + HopScore(loopId, n))
    {
      ghost var g0 := allStreetScores;
      allStreetScores := SetDefaultAdd(allStreetScores, s, PositionScore(loopId, n));
      if loopId == 0 {
        PutSpec(g0, s, GetOr(g0, s, 0) + PositionScore(loopId, n));
        allStreetScores := Put(allStreetScores, s, Get(allStreetScores, s) + 3);
        PutPut(g0, s, GetOr(g0, s, 0) + PositionScore(loopId, n), GetOr(g0, s, 0) + HopScore(loopId, n));
      }
    }

    /** `schedule_one_way_in_intersections`. */
    method ScheduleOneWayInIntersections()
      requires |intersections| == nIntersections
      requires forall j :: 0 <= j < |intersections| ==> RefsOk(intersections[j], streets)
      modifies this`intersections
      ensures intersections == OneWayAll(old(intersections), streets)
    {
      ghost var before := intersections;
      var i := 0;
      while i < nIntersections
        invariant 0 <= i <= nIntersections && |intersections| == |before|
        invariant forall j :: 0 <= j < i ==> intersections[j] == OneWay(before[j], streets)
        invariant forall j :: i <= j < |before| ==> intersections[j] == before[j]
      {
        if |intersections[i].incoming| == 1 {
          var inStreetId := intersections[i].incoming[0];
          var inStreetName := streets[inStreetId].name;
          intersections := intersections[i := intersections[i].(schedule := [(inStreetName, 1)])];
        }
        i := i + 1;
      }
    }

    /** `schedule_round_robin`: an empty schedule is filled from the
        pressure dict, in its order, or else with weight 1 for every
        incoming street. */
    method ScheduleRoundRobin()
      requires |intersections| == nIntersections
      requires forall j :: 0 <= j < |intersections| ==> RefsOk(intersections[j], streets)
      modifies this`intersections
      ensures intersections == RoundRobinAll(old(intersections), streets)
    {
      ghost var before := intersections;
      var allStreets := streets;
      var i := 0;
      while i < nIntersections
        invariant 0 <= i <= nIntersections && |intersections| == |before|
        invariant forall j :: 0 <= j < i ==> intersections[j] == RoundRobin(before[j], allStreets)
        invariant forall j :: i <= j < |before| ==> intersections[j] == before[j]
      {
        var x := intersections[i];
        if |x.schedule| == 0 {
          var sched;
          if |x.inScores| > 0 {
            sched := ScheduleFromPressure(x.schedule, x.inScores, allStreets);
          } else {
            sched := ScheduleUniform(x.schedule, x.incoming, allStreets);
          }
          intersections := intersections[i := x.(schedule := sched)];
        }
        i := i + 1;
      }
    }

    /** `upscale_fraction_of_best_streets`: the weights of the
        n_streets / fraction best-scored streets are multiplied by the
        factor at their end intersections. */
    method UpscaleFractionOfBestStreets(fraction: nat, factor: int)
      requires 0 < fraction
      requires Lookups(intersections, streets, Selected(allStreetScores, TopCount(|streets|, fraction)))
      modifies this`intersections
      ensures intersections == Upscale(old(intersections), streets, allStreetScores, fraction, factor)
    {
      var nUpscaled := |streets| / fraction;
      if nUpscaled == 0 {
        return;
      }
      var sorted := SortDesc(allStreetScores);
      var top := if nUpscaled <= |sorted| then sorted[..nUpscaled] else sorted;
      assert top == Selected(allStreetScores, TopCount(|streets|, fraction));
      UpscaleStreets(top, factor);
    }

    /** The loop of `upscale_fraction_of_best_streets` over the selected
        streets, best first. */
    method UpscaleStreets(top: Dict<nat, int>, factor: int)
      requires Lookups(intersections, streets, top)
      modifies this`intersections
      ensures intersections == UpscaleFirst(old(intersections), streets, top, |top|, factor)
    {
      var allStreets := streets;
      ghost var base := intersections;
      var t := 0;
      while t < |top|
        invariant 0 <= t <= |top|
        invariant intersections == UpscaleFirst(base, allStreets, top, t, factor)
      {
        var streetId := top[t].0;
        var iEnd := allStreets[streetId].iEnd;
        var inStreetName := allStreets[streetId].name;
        UpscaleStep(base, allStreets, top, t, factor);
        var x := intersections[iEnd];
        var sched := Put(x.schedule, inStreetName, Get(x.schedule, inStreetName) * factor);
        intersections := intersections[iEnd := x.(schedule := sched)];
        t := t + 1;
      }
    }

    /** `get_min_max_scheduled_seconds`: one scan keeping the running
        minimum and maximum, then min moved below max when they coincide. */
    method GetMinMaxScheduledSeconds(i: nat) returns (lo: int, hi: int)
      requires i < |intersections| && |intersections[i].schedule| > 0
      ensures (lo, hi) == Bounds(intersections[i].schedule)
    {
      var sched := intersections[i].schedule;
      var minSeconds: Option<int> := None;
      var maxSeconds: Option<int> := None;
      var k := 0;
      while k < |sched|
        invariant 0 <= k <= |sched|
        invariant k == 0 ==> minSeconds == None && maxSeconds == None
        invariant k > 0 ==> minSeconds == Some(MinWeight(sched[..k])) && maxSeconds == Some(MaxWeight(sched[..k]))
      {
        var seconds := sched[k].1;
        if minSeconds.None? || seconds < minSeconds.value {
          minSeconds := Some(seconds);
        }
        if maxSeconds.None? || seconds > maxSeconds.value {
          maxSeconds := Some(seconds);
        }
        assert sched[..k + 1][..k] == sched[..k];
        k := k + 1;
      }
      assert sched[..|sched|] == sched;
      if maxSeconds == minSeconds {
        minSeconds := Some(maxSeconds.value - 1);
      }
      lo, hi := minSeconds.value, maxSeconds.value;
    }

    /** `normalize_schedules`: every schedule of an intersection with
        incoming streets gets its normalised, rounded weights, key by key. */
    method NormalizeSchedules(minT: int, maxT: int, useRound: bool)
      requires |intersections| == nIntersections
      requires forall j :: 0 <= j < |intersections| ==> DistinctKeys(intersections[j].schedule)
      requires forall j :: 0 <= j < |intersections| && |intersections[j].incoming| > 0 ==> |intersections[j].schedule| > 0
      modifies this`intersections
      ensures intersections == NormalizeAll(old(intersections), minT, maxT, useRound)
    {
      ghost var before := intersections;
      ghost var after := NormalizeAll(before, minT, maxT, useRound);
      var i := 0;
      while i < nIntersections
        invariant 0 <= i <= nIntersections && |intersections| == |before|
        invariant forall j :: 0 <= j < i ==> intersections[j] == after[j]
        invariant forall j :: i <= j < |before| ==> intersections[j] == before[j]
      {
        if |intersections[i].incoming| > 0 {
          var lo, hi := GetMinMaxScheduledSeconds(i);
          BoundsSpec(intersections[i].schedule);
          var sched := RescaleSchedule(intersections[i].schedule, lo, hi, minT, maxT, useRound);
          intersections := intersections[i := intersections[i].(schedule := sched)];
        }
        i := i + 1;
      }
    }

    /** The sections `write_output` writes, one per intersection. */
    method WriteOutput() returns (out: seq<Section>)
      ensures out == Sections(intersections)
    {
      out := [];
      var i := 0;
      while i < |intersections|
        invariant 0 <= i <= |intersections| && |out| == i
        invariant forall j :: 0 <= j < i ==> out[j] == SectionOf(j, intersections[j])
      {
        if |intersections[i].incoming| > 0 {
          var sortedSchedules := SortDesc(intersections[i].schedule);
          out := out + [Listed(i, sortedSchedules)];
        } else {
          out := out + [Bare(i)];
        }
        i := i + 1;
      }
    }

    /** `set_schedules`: scoring, both assignment passes, then upscaling. */
    method SetSchedules(fraction: nat, factor: int)
      requires Valid() && Unscheduled(intersections) && allStreetScores == [] && 0 < fraction
      modifies this`intersections, this`allStreetScores
      ensures intersections == Pipeline.SetSchedules(nIntersections, streets, old(intersections), cars, fraction, factor)
      ensures allStreetScores == Scored(nIntersections, streets, old(intersections), cars).global
    {
      SetSchedulesSteps(nIntersections, streets, intersections, cars, fraction, factor);
      AssignSchedules();
      UpscaleFractionOfBestStreets(fraction, factor);
    }

    /** The first three passes of `set_schedules`: scoring, then the one-way
        and round-robin assignments. */
    method AssignSchedules()
      requires Valid() && Unscheduled(intersections) && allStreetScores == []
      modifies this`intersections, this`allStreetScores
      ensures intersections == Assigned(nIntersections, streets, old(intersections), cars)
      ensures allStreetScores == Scored(nIntersections, streets, old(intersections), cars).global
    {
      assert StreetsEndIn(streets, |intersections|) && RoutesIn(cars, |streets|) && EndsKnown(streets, streetEnds);
      AssignedSteps(nIntersections, streets, intersections, cars);
      ScoreStreetsInIntersections();
      ScheduleOneWayInIntersections();
      ScheduleRoundRobin();
    }

    /** `solve`: set the schedules, normalise them to [minT, maxT], and give
        the sections of the output; the normalised schedules and the global
        scores stay in the object. */
    method Solve(minT: int, maxT: int, fraction: nat, factor: int, useRound: bool) returns (out: seq<Section>)
      requires Valid() && Unscheduled(intersections) && allStreetScores == [] && 0 < fraction
      modifies this`intersections, this`allStreetScores
      ensures intersections == Solved(nIntersections, streets, old(intersections), cars, minT, maxT, fraction, factor, useRound)
      ensures allStreetScores == Scored(nIntersections, streets, old(intersections), cars).global
      ensures out == Pipeline.Solve(nIntersections, streets, old(intersections), cars, minT, maxT, fraction, factor, useRound)
    {
      ghost var ints0 := intersections;
      SetSchedules(fraction, factor);
      SetSchedulesNonEmpty(nIntersections, streets, ints0, cars, fraction, factor);
      SetSchedulesDistinct(nIntersections, streets, ints0, cars, fraction, factor);
      SetSchedulesShape(nIntersections, streets, ints0, cars, fraction, factor);
      NormalizeSchedules(minT, maxT, useRound);
      out := WriteOutput();
    }
  }

  /** The inner loop of `schedule_round_robin` for an intersection with
      scored streets: each one in scoring order gets its pressure count. */
  method ScheduleFromPressure(sched0: Dict<string, int>, inScores: Dict<nat, int>, streets: seq<Street>)
    returns (sched: Dict<string, int>)
    requires forall i :: 0 <= i < |inScores| ==> inScores[i].0 < |streets|
    ensures sched == FromPressure(sched0, inScores, streets, |inScores|)
  {
    sched := sched0;
    var k := 0;
    while k < |inScores|
      invariant 0 <= k <= |inScores|
      invariant sched == FromPressure(sched0, inScores, streets, k)
    {
      var inStreetId := inScores[k].0;
      sched := Put(sched, streets[inStreetId].name, inScores[k].1);
      k := k + 1;
    }
  }

  /** The inner loop of `schedule_round_robin` for an intersection nothing
      was scored at: every incoming street gets one second. */
  method ScheduleUniform(sched0: Dict<string, int>, incoming: seq<nat>, streets: seq<Street>)
    returns (sched: Dict<string, int>)
    requires forall i :: 0 <= i < |incoming| ==> incoming[i] < |streets|
    ensures sched == Uniform(sched0, incoming, streets, |incoming|)
  {
    sched := sched0;
    var k := 0;
    while k < |incoming|
      invariant 0 <= k <= |incoming|
      invariant sched == Uniform(sched0, incoming, streets, k)
    {
      var inStreetId := incoming[k];
      sched := Put(sched, streets[inStreetId].name, 1);
      k := k + 1;
    }
  }

  /** The loop of `normalize_schedules` over one schedule: each entry, in
      order, is assigned its rescaled, rounded weight under its own key. */
  method RescaleSchedule(s0: Dict<string, int>, lo: int, hi: int, minT: int, maxT: int, useRound: bool)
    returns (sched: Dict<string, int>)
    requires DistinctKeys(s0) && lo != hi
    ensures sched == Rescaled(s0, lo, hi, minT, maxT, useRound)
  {
    sched := s0;
    var k := 0;
    while k < |s0|
      invariant 0 <= k <= |s0| && |sched| == |s0| && DistinctKeys(sched)
      invariant forall p :: 0 <= p < k ==> sched[p] == (s0[p].0, Rounded(Normalized(s0[p].1, lo, hi, minT, maxT), useRound))
      invariant forall p :: k <= p < |s0| ==> sched[p] == s0[p]
    {
      var streetName := sched[k].0;
      var seconds := sched[k].1;
      var normalized := Normalized(seconds, lo, hi, minT, maxT);
      var rounded := Rounded(normalized, useRound);
      PutExisting(sched, k, rounded);
      sched := Put(sched, streetName, rounded);
      k := k + 1;
    }
  }

  /** `d.setdefault(k, 0)` followed by `d[k] += a`: the old value (0 when
      absent) plus `a`, under `k`. */
  method SetDefaultAdd(d: Dict<nat, int>, k: nat, a: int) returns (r: Dict<nat, int>)
    ensures r == Put(d, k, GetOr(d, k, 0) + a)
  {
    r := d;
    if !HasKey(r, k) {
      r := Put(r, k, 0);
    }
    SetDefaultThenAdd(d, k, a);
    r := Put(r, k, Get(r, k) + a);
  }
}
