/** Route pressure scoring (`score_streets_in_intersections` and
    `increase_street_global_score`): every street of a car's route but the
    last raises that street's pressure count at its end intersection by one
    and its global score by a position-decayed amount. */
module Scoring {
  import opened Dicts
  import opened Network
  import opened Arithmetic

  /** The two accumulators: every intersection's `in_scores` (inside the
      intersection records) and `all_street_scores`. */
  datatype Tally = Tally(ints: seq<Intersection>, global: Dict<nat, int>)

  /** `int(((n - p) / n) * 2 + 1)` for the hop at position `p` of `n`, in
      integer arithmetic. */
  function PositionScore(p: nat, n: nat): int
    requires p < n
  {
    1 + (2 * (n - p)) / n
  }

  /** What one hop adds to its street's global score: the position score,
      and 3 more for the first hop of a route. */
  function HopScore(p: nat, n: nat): int
    requires p < n
  {
    PositionScore(p, n) + (if p == 0 then 3 else 0)
  }

  /** The scored part of a route, `route_table[:-1]`: all streets but the
      last, nothing for an empty route. */
  function ScoredHops(route: seq<nat>): seq<nat>
  {
    if |route| == 0 then [] else route[..|route| - 1]
  }

  /** Every street ends at an intersection of `n`. */
  ghost predicate StreetsEndIn(streets: seq<Street>, n: nat)
  {
    forall k :: 0 <= k < |streets| ==> streets[k].iEnd < n
  }

  /** Every route names only known streets. */
  ghost predicate RoutesIn(cars: seq<Car>, nStreets: nat)
  {
    forall c, t :: 0 <= c < |cars| && 0 <= t < |cars[c].route| ==> cars[c].route[t] < nStreets
  }

  /** The hop scores of a route with `n` scored hops, by position. */
  function HopScores(n: nat): seq<int>
  {
    seq(n, p requires 0 <= p < n => HopScore(p, n))
  }

  /** Scoring street `s` as a hop worth `gain` to its global score. */
  function ScoreHop(t: Tally, streets: seq<Street>, s: nat, gain: int): (r: Tally)
    requires s < |streets| && streets[s].iEnd < |t.ints|
    ensures |r.ints| == |t.ints|
  {
    var j := streets[s].iEnd;
    var x := t.ints[j];
    Tally(t.ints[j := x.(inScores := Put(x.inScores, s, GetOr(x.inScores, s, 0) + 1))],
          Put(t.global, s, GetOr(t.global, s, 0) + gain))
  }

  /** Scoring the first `k` of a car's scored hops, hop `i` worth `gains[i]`. */
  function ScoreHops(t: Tally, streets: seq<Street>, hops: seq<nat>, gains: seq<int>, k: nat): (r: Tally)
    requires k <= |hops| == |gains|
    requires StreetsEndIn(streets, |t.ints|)
    requires forall i :: 0 <= i < |hops| ==> hops[i] < |streets|
    ensures |r.ints| == |t.ints|
    decreases k
  {
    if k == 0 then t
    else ScoreHop(ScoreHops(t, streets, hops, gains, k - 1), streets, hops[k - 1], gains[k - 1])
  }

  /** Scoring one car (a route of length at most 1 scores nothing). */
  function ScoreCar(t: Tally, streets: seq<Street>, route: seq<nat>): (r: Tally)
    requires StreetsEndIn(streets, |t.ints|)
    requires forall i :: 0 <= i < |route| ==> route[i] < |streets|
    ensures |r.ints| == |t.ints|
  {
    var hops := ScoredHops(route);
    ScoreHops(t, streets, hops, HopScores(|hops|), |hops|)
  }

  /** Scoring every car, in order. */
  function ScoreCars(t: Tally, streets: seq<Street>, cars: seq<Car>): (r: Tally)
    requires StreetsEndIn(streets, |t.ints|) && RoutesIn(cars, |streets|)
    ensures |r.ints| == |t.ints|
  {
    if |cars| == 0 then t
    else
      var last := |cars| - 1;
      ScoreCar(ScoreCars(t, streets, cars[..last]), streets, cars[last].route)
  }

  /** Scoring the first `c` cars, in order. */
  function ScoreFirstCars(t: Tally, streets: seq<Street>, cars: seq<Car>, c: nat): (r: Tally)
    requires c <= |cars| && StreetsEndIn(streets, |t.ints|) && RoutesIn(cars, |streets|)
    ensures |r.ints| == |t.ints|
  {
    if c == 0 then t
    else ScoreCar(ScoreFirstCars(t, streets, cars, c - 1), streets, cars[c - 1].route)
  }

  /** Scoring the first `c` cars is scoring the prefix of length `c`; with
      `c = |cars|` it is scoring every car. */
  lemma {:induction false} ScoreFirstCarsPrefix(t: Tally, streets: seq<Street>, cars: seq<Car>, c: nat)
    requires c <= |cars| && StreetsEndIn(streets, |t.ints|) && RoutesIn(cars, |streets|)
    ensures RoutesIn(cars[..c], |streets|)
    ensures ScoreFirstCars(t, streets, cars, c) == ScoreCars(t, streets, cars[..c])
  {
    if c > 0 {
      ScoreFirstCarsPrefix(t, streets, cars, c - 1);
      assert cars[..c][..c - 1] == cars[..c - 1];
    }
  }

  // ---------------------------------------------------------------------
  // Reference definitions: what the accumulators add up to.

  /** How often street `s` is among the first `k` hops. */
  function CountIn(s: nat, hops: seq<nat>, k: nat): nat
    requires k <= |hops|
  {
    if k == 0 then 0 else CountIn(s, hops, k - 1) + (if hops[k - 1] == s then 1 else 0)
  }

  /** What street `s` collects from the first `k` hops. */
  function GainIn(s: nat, hops: seq<nat>, gains: seq<int>, k: nat): int
    requires k <= |hops| == |gains|
  {
    if k == 0 then 0 else GainIn(s, hops, gains, k - 1) + (if hops[k - 1] == s then gains[k - 1] else 0)
  }

  /** How often street `s` is scored over all cars: its pressure. */
  function Occurrences(s: nat, cars: seq<Car>): nat
  {
    if |cars| == 0 then 0
    else
      var last := |cars| - 1;
      var hops := ScoredHops(cars[last].route);
      Occurrences(s, cars[..last]) + CountIn(s, hops, |hops|)
  }

  /** Street `s`'s global score over all cars. */
  function Gain(s: nat, cars: seq<Car>): int
  {
    if |cars| == 0 then 0
    else
      var last := |cars| - 1;
      var hops := ScoredHops(cars[last].route);
      Gain(s, cars[..last]) + GainIn(s, hops, HopScores(|hops|), |hops|)
  }

  /** Number of scored hops over all cars: the sum of max(|route| - 1, 0). */
  function TotalHops(cars: seq<Car>): nat
  {
    if |cars| == 0 then 0
    else TotalHops(cars[..|cars| - 1]) + |ScoredHops(cars[|cars| - 1].route)|
  }

  /** Sum of all pressure counts over all intersections. */
  function Pressure(ints: seq<Intersection>): int
  {
    if |ints| == 0 then 0 else Pressure(ints[..|ints| - 1]) + Sum(ints[|ints| - 1].inScores)
  }

  // ---------------------------------------------------------------------
  // The score increment.

  /** The integer formula is the truncation of the source's expression
      evaluated exactly. */
  lemma PositionScoreIsFloor(p: nat, n: nat)
    requires p < n
    ensures PositionScore(p, n) == (((n - p) as real / n as real) * 2.0 + 1.0).Floor
  {
    var a := 2 * (n - p);
    RealQuotient(a, n);
    assert ((n - p) as real / n as real) * 2.0 == a as real / n as real;
    var f := (a % n) as real / n as real;
    assert ((1 + a / n) as real + f).Floor == 1 + a / n;
  }

  /** Each scored hop adds between 1 and 3 (exactly 3 for the first hop), and
      the first hop adds 3 more; later hops never add more than earlier ones. */
  lemma HopScoreBounds(p: nat, n: nat)
    requires p < n
    ensures 1 <= PositionScore(p, n) <= 3
    ensures PositionScore(p, n) == 3 <==> p == 0
    ensures HopScore(p, n) == if p == 0 then 6 else PositionScore(p, n)
    ensures p + 1 < n ==> PositionScore(p + 1, n) <= PositionScore(p, n)
  {
    var a := 2 * (n - p);
    if p == 0 {
      DivExact(a, n, 2);
    } else if a >= n {
      DivExact(a, n, 1);
    } else {
      DivExact(a, n, 0);
    }
    if p + 1 < n {
      DivMonotone(2 * (n - p - 1), a, n);
    }
  }

  // ---------------------------------------------------------------------
  // Invariants of the accumulators.

  /** The pressure dict of intersection `j`: only streets ending at `j`,
      each once, with a count of at least 1. */
  ghost predicate PressureOk(d: Dict<nat, int>, streets: seq<Street>, j: nat)
  {
    && DistinctKeys(d)
    && forall i :: 0 <= i < |d| ==> d[i].0 < |streets| && streets[d[i].0].iEnd == j && d[i].1 >= 1
  }

  /** Pressure dicts are well formed, and every street with a global score
      (at least 1) has a pressure count at its end intersection. */
  ghost predicate TallyOk(t: Tally, streets: seq<Street>)
  {
    && StreetsEndIn(streets, |t.ints|)
    && (forall j :: 0 <= j < |t.ints| ==> PressureOk(t.ints[j].inScores, streets, j))
    && DistinctKeys(t.global)
    && (forall i :: 0 <= i < |t.global| ==>
          t.global[i].0 < |streets|
          && HasKey(t.ints[streets[t.global[i].0].iEnd].inScores, t.global[i].0)
          && t.global[i].1 >= 1)
  }

  /** Only the pressure dicts change; everything else about an intersection
      stays as it was. */
  ghost predicate OnlyPressureChanged(before: seq<Intersection>, after: seq<Intersection>)
  {
    |after| == |before|
    && forall j :: 0 <= j < |before| ==> after[j] == before[j].(inScores := after[j].inScores)
  }

  lemma OnlyPressureTrans(a: seq<Intersection>, b: seq<Intersection>, c: seq<Intersection>)
    requires OnlyPressureChanged(a, b) && OnlyPressureChanged(b, c)
    ensures OnlyPressureChanged(a, c)
  {
  }

  lemma TallyOkInitially(ints: seq<Intersection>, streets: seq<Street>)
    requires StreetsEndIn(streets, |ints|) && Unscheduled(ints)
    ensures TallyOk(Tally(ints, []), streets)
  {
  }

  /** Every hop of a route is worth at least 1. */
  lemma HopScoresPositive(n: nat)
    ensures forall p :: 0 <= p < n ==> HopScores(n)[p] >= 1
  {
    forall p | 0 <= p < n
      ensures HopScores(n)[p] >= 1
    {
      HopScoreBounds(p, n);
    }
  }

  lemma ScoreHopOk(t: Tally, streets: seq<Street>, s: nat, gain: int)
    requires TallyOk(t, streets)
    requires s < |streets| && gain >= 1
    ensures TallyOk(ScoreHop(t, streets, s, gain), streets)
    ensures OnlyPressureChanged(t.ints, ScoreHop(t, streets, s, gain).ints)
  {
    ScoreHopPressureOk(t, streets, s, gain);
    ScoreHopGlobalOk(t, streets, s, gain);
    ScoreHopCounted(t, streets, s, gain);
  }

  /** The pressure dicts stay well formed. */
  lemma ScoreHopPressureOk(t: Tally, streets: seq<Street>, s: nat, gain: int)
    requires TallyOk(t, streets) && s < |streets|
    ensures var r := ScoreHop(t, streets, s, gain);
      forall j :: 0 <= j < |r.ints| ==> PressureOk(r.ints[j].inScores, streets, j)
  {
    var j := streets[s].iEnd;
    var d := t.ints[j].inScores;
    var v := GetOr(d, s, 0) + 1;
    PutEntries(d, s, v);
    PutDistinct(d, s, v);
  }

  /** The global scores stay distinct, known and at least 1. */
  lemma ScoreHopGlobalOk(t: Tally, streets: seq<Street>, s: nat, gain: int)
    requires TallyOk(t, streets) && s < |streets| && gain >= 1
    ensures var r := ScoreHop(t, streets, s, gain);
      DistinctKeys(r.global) && forall i :: 0 <= i < |r.global| ==> r.global[i].0 < |streets| && r.global[i].1 >= 1
  {
    PutDistinct(t.global, s, GetOr(t.global, s, 0) + gain);
    PutEntries(t.global, s, GetOr(t.global, s, 0) + gain);
  }

  /** Every street with a global score keeps a pressure count. */
  lemma ScoreHopCounted(t: Tally, streets: seq<Street>, s: nat, gain: int)
    requires TallyOk(t, streets) && s < |streets|
    ensures var r := ScoreHop(t, streets, s, gain);
      forall i :: 0 <= i < |r.global| ==>
        r.global[i].0 < |streets| && HasKey(r.ints[streets[r.global[i].0].iEnd].inScores, r.global[i].0)
  {
    var r := ScoreHop(t, streets, s, gain);
    var j := streets[s].iEnd;
    var d := t.ints[j].inScores;
    var v := GetOr(d, s, 0) + 1;
    PutEntries(t.global, s, GetOr(t.global, s, 0) + gain);
    forall i | 0 <= i < |r.global|
      ensures r.global[i].0 < |streets| && HasKey(r.ints[streets[r.global[i].0].iEnd].inScores, r.global[i].0)
    {
      GetOrPut(d, s, v, r.global[i].0, 0);
    }
  }

  lemma {:induction false} ScoreHopsOk(t: Tally, streets: seq<Street>, hops: seq<nat>, gains: seq<int>, k: nat)
    requires TallyOk(t, streets) && k <= |hops| == |gains|
    requires forall i :: 0 <= i < |hops| ==> hops[i] < |streets| && gains[i] >= 1
    ensures TallyOk(ScoreHops(t, streets, hops, gains, k), streets)
    ensures OnlyPressureChanged(t.ints, ScoreHops(t, streets, hops, gains, k).ints)
  {
    if k > 0 {
      ScoreHopsOk(t, streets, hops, gains, k - 1);
      var mid := ScoreHops(t, streets, hops, gains, k - 1);
      ScoreHopOk(mid, streets, hops[k - 1], gains[k - 1]);
      OnlyPressureTrans(t.ints, mid.ints, ScoreHop(mid, streets, hops[k - 1], gains[k - 1]).ints);
    }
  }

  /** Scoring keeps the accumulator invariant and touches nothing but the
      pressure dicts. */
  lemma {:induction false} ScoreCarsOk(t: Tally, streets: seq<Street>, cars: seq<Car>)
    requires TallyOk(t, streets) && RoutesIn(cars, |streets|)
    ensures TallyOk(ScoreCars(t, streets, cars), streets)
    ensures OnlyPressureChanged(t.ints, ScoreCars(t, streets, cars).ints)
  {
    if |cars| > 0 {
      var last := |cars| - 1;
      ScoreCarsOk(t, streets, cars[..last]);
      var mid := ScoreCars(t, streets, cars[..last]);
      var hops := ScoredHops(cars[last].route);
      HopScoresPositive(|hops|);
      ScoreHopsOk(mid, streets, hops, HopScores(|hops|), |hops|);
      OnlyPressureTrans(t.ints, mid.ints, ScoreCar(mid, streets, cars[last].route).ints);
    }
  }

  // ---------------------------------------------------------------------
  // What the accumulators hold.

  /** One hop raises its own street's count by 1 and global score by the hop
      score, and no other street's. */
  lemma ScoreHopEffect(t: Tally, streets: seq<Street>, s: nat, gain: int, s': nat)
    requires s < |streets| && streets[s].iEnd < |t.ints|
    requires s' < |streets| && streets[s'].iEnd < |t.ints|
    ensures var r := ScoreHop(t, streets, s, gain);
      && GetOr(r.ints[streets[s'].iEnd].inScores, s', 0)
           == GetOr(t.ints[streets[s'].iEnd].inScores, s', 0) + (if s' == s then 1 else 0)
      && GetOr(r.global, s', 0) == GetOr(t.global, s', 0) + (if s' == s then gain else 0)
      && (HasKey(r.global, s') <==> HasKey(t.global, s') || s' == s)
  {
    var j := streets[s].iEnd;
    var d := t.ints[j].inScores;
    GetOrPut(d, s, GetOr(d, s, 0) + 1, s', 0);
    GetOrPut(t.global, s, GetOr(t.global, s, 0) + gain, s', 0);
  }

  lemma {:induction false} ScoreHopsEffect(t: Tally, streets: seq<Street>, hops: seq<nat>, gains: seq<int>, k: nat, s: nat)
    requires k <= |hops| == |gains| && StreetsEndIn(streets, |t.ints|)
    requires forall i :: 0 <= i < |hops| ==> hops[i] < |streets|
    requires s < |streets|
    ensures var r := ScoreHops(t, streets, hops, gains, k);
      && GetOr(r.ints[streets[s].iEnd].inScores, s, 0)
           == GetOr(t.ints[streets[s].iEnd].inScores, s, 0) + CountIn(s, hops, k)
      && GetOr(r.global, s, 0) == GetOr(t.global, s, 0) + GainIn(s, hops, gains, k)
      && (HasKey(r.global, s) <==> HasKey(t.global, s) || CountIn(s, hops, k) > 0)
  {
    if k > 0 {
      ScoreHopsEffect(t, streets, hops, gains, k - 1, s);
      var mid := ScoreHops(t, streets, hops, gains, k - 1);
      assert streets[hops[k - 1]].iEnd < |mid.ints| && streets[s].iEnd < |mid.ints|;
      ScoreHopEffect(mid, streets, hops[k - 1], gains[k - 1], s);
    }
  }

  /** After scoring, a street's pressure count at its end intersection is
      the number of times it is scored over all routes, its global score is
      the sum of its hop scores, and it has a global score exactly when it
      is scored at least once. */
  lemma {:induction false} ScoreCarsEffect(t: Tally, streets: seq<Street>, cars: seq<Car>, s: nat)
    requires StreetsEndIn(streets, |t.ints|) && RoutesIn(cars, |streets|)
    requires s < |streets|
    ensures var r := ScoreCars(t, streets, cars);
      && GetOr(r.ints[streets[s].iEnd].inScores, s, 0)
           == GetOr(t.ints[streets[s].iEnd].inScores, s, 0) + Occurrences(s, cars)
      && GetOr(r.global, s, 0) == GetOr(t.global, s, 0) + Gain(s, cars)
      && (HasKey(r.global, s) <==> HasKey(t.global, s) || Occurrences(s, cars) > 0)
  {
    if |cars| > 0 {
      var last := |cars| - 1;
      ScoreCarsEffect(t, streets, cars[..last], s);
      var hops := ScoredHops(cars[last].route);
      ScoreHopsEffect(ScoreCars(t, streets, cars[..last]), streets, hops, HopScores(|hops|), |hops|, s);
    }
  }

  lemma {:induction false} PressureUpdate(ints: seq<Intersection>, j: nat, x: Intersection)
    requires j < |ints|
    ensures Pressure(ints[j := x]) == Pressure(ints) - Sum(ints[j].inScores) + Sum(x.inScores)
  {
    var n := |ints|;
    assert ints[j := x][..n - 1] == if j == n - 1 then ints[..n - 1] else ints[..n - 1][j := x];
    if j < n - 1 {
      PressureUpdate(ints[..n - 1], j, x);
    }
  }

  lemma {:induction false} ScoreHopsPressure(t: Tally, streets: seq<Street>, hops: seq<nat>, gains: seq<int>, k: nat)
    requires k <= |hops| == |gains| && StreetsEndIn(streets, |t.ints|)
    requires forall i :: 0 <= i < |hops| ==> hops[i] < |streets|
    ensures Pressure(ScoreHops(t, streets, hops, gains, k).ints) == Pressure(t.ints) + k
  {
    if k > 0 {
      ScoreHopsPressure(t, streets, hops, gains, k - 1);
      var mid := ScoreHops(t, streets, hops, gains, k - 1);
      var s := hops[k - 1];
      var j := streets[s].iEnd;
      var d := mid.ints[j].inScores;
      var x := mid.ints[j].(inScores := Put(d, s, GetOr(d, s, 0) + 1));
      assert ScoreHops(t, streets, hops, gains, k).ints == mid.ints[j := x];
      SumAdd(d, s, 1);
      PressureUpdate(mid.ints, j, x);
    }
  }

  /** Each scored hop adds exactly one to the total pressure: scoring adds
      the sum over cars of max(|route| - 1, 0). */
  lemma {:induction false} ScoreCarsPressure(t: Tally, streets: seq<Street>, cars: seq<Car>)
    requires StreetsEndIn(streets, |t.ints|) && RoutesIn(cars, |streets|)
    ensures Pressure(ScoreCars(t, streets, cars).ints) == Pressure(t.ints) + TotalHops(cars)
  {
    if |cars| > 0 {
      var last := |cars| - 1;
      ScoreCarsPressure(t, streets, cars[..last]);
      var hops := ScoredHops(cars[last].route);
      ScoreHopsPressure(ScoreCars(t, streets, cars[..last]), streets, hops, HopScores(|hops|), |hops|);
    }
  }

  /** A route of length at most 1 is skipped; otherwise its last street is
      the only one not scored. */
  lemma ScoredHopsSpec(route: seq<nat>)
    ensures |ScoredHops(route)| == if |route| <= 1 then 0 else |route| - 1
    ensures forall i :: 0 <= i < |ScoredHops(route)| ==> ScoredHops(route)[i] == route[i]
  {
  }

  // ---------------------------------------------------------------------
  // Key order: both stable sorts break ties by it.

  /** Every car's scored hops, car by car: the order in which streets are
      scored. */
  function AllHops(cars: seq<Car>): seq<nat>
  {
    if |cars| == 0 then [] else AllHops(cars[..|cars| - 1]) + ScoredHops(cars[|cars| - 1].route)
  }

  /** The hops whose street ends at intersection `j`, in order. */
  function EndingAt(streets: seq<Street>, hops: seq<nat>, j: nat): seq<nat>
  {
    if |hops| == 0 then []
    else
      var s := hops[|hops| - 1];
      EndingAt(streets, hops[..|hops| - 1], j) + (if s < |streets| && streets[s].iEnd == j then [s] else [])
  }

  lemma {:induction false} EndingAtAppend(streets: seq<Street>, xs: seq<nat>, ys: seq<nat>, j: nat)
    ensures EndingAt(streets, xs + ys, j) == EndingAt(streets, xs, j) + EndingAt(streets, ys, j)
  {
    if |ys| == 0 {
      assert xs + ys == xs;
    } else {
      var ys' := ys[..|ys| - 1];
      var zs := xs + ys;
      EndingAtAppend(streets, xs, ys', j);
      assert zs[..|zs| - 1] == xs + ys';
      assert zs[|zs| - 1] == ys[|ys| - 1];
    }
  }

  /** One hop appends its street to the global keys and to the pressure
      keys of its end intersection when it is new there, and leaves every
      other intersection's keys alone. */
  lemma ScoreHopKeys(t: Tally, streets: seq<Street>, s: nat, gain: int, j: nat)
    requires s < |streets| && streets[s].iEnd < |t.ints| && j < |t.ints|
    ensures var r := ScoreHop(t, streets, s, gain);
      && Keys(r.global) == AddKeys(Keys(t.global), [s])
      && Keys(r.ints[j].inScores) == AddKeys(Keys(t.ints[j].inScores), EndingAt(streets, [s], j))
  {
    var r := ScoreHop(t, streets, s, gain);
    var e := streets[s].iEnd;
    PutKeys(t.global, s, GetOr(t.global, s, 0) + gain);
    assert EndingAt(streets, [s], j) == if e == j then [s] else [] by {
      assert [s][..0] == [];
    }
    if j == e {
      var x := t.ints[e];
      PutKeys(x.inScores, s, GetOr(x.inScores, s, 0) + 1);
    } else {
      assert r.ints[j] == t.ints[j];
    }
  }

  /** After a car's first `k` hops, the global keys and each intersection's
      pressure keys are the old ones followed by the newly scored streets
      (those ending there), in the order they were first scored. */
  lemma {:induction false} ScoreHopsKeys(t: Tally, streets: seq<Street>, hops: seq<nat>, gains: seq<int>, k: nat, j: nat)
    requires k <= |hops| == |gains| && StreetsEndIn(streets, |t.ints|)
    requires forall i :: 0 <= i < |hops| ==> hops[i] < |streets|
    requires j < |t.ints|
    ensures var r := ScoreHops(t, streets, hops, gains, k);
      && Keys(r.global) == AddKeys(Keys(t.global), hops[..k])
      && Keys(r.ints[j].inScores) == AddKeys(Keys(t.ints[j].inScores), EndingAt(streets, hops[..k], j))
  {
    if k > 0 {
      ScoreHopsKeys(t, streets, hops, gains, k - 1, j);
      var mid := ScoreHops(t, streets, hops, gains, k - 1);
      var s := hops[k - 1];
      ScoreHopKeys(mid, streets, s, gains[k - 1], j);
      assert hops[..k] == hops[..k - 1] + [s];
      AddKeysAppend(Keys(t.global), hops[..k - 1], [s]);
      EndingAtAppend(streets, hops[..k - 1], [s], j);
      AddKeysAppend(Keys(t.ints[j].inScores), EndingAt(streets, hops[..k - 1], j), EndingAt(streets, [s], j));
    }
  }

  /** After every car, the global keys are the old ones followed by the
      scored streets in the order they were first scored, and each
      intersection's pressure keys likewise with the streets ending there. */
  lemma {:induction false} ScoreCarsKeys(t: Tally, streets: seq<Street>, cars: seq<Car>, j: nat)
    requires StreetsEndIn(streets, |t.ints|) && RoutesIn(cars, |streets|)
    requires j < |t.ints|
    ensures var r := ScoreCars(t, streets, cars);
      && Keys(r.global) == AddKeys(Keys(t.global), AllHops(cars))
      && Keys(r.ints[j].inScores) == AddKeys(Keys(t.ints[j].inScores), EndingAt(streets, AllHops(cars), j))
  {
    if |cars| > 0 {
      var last := |cars| - 1;
      ScoreCarsKeys(t, streets, cars[..last], j);
      var mid := ScoreCars(t, streets, cars[..last]);
      var hops := ScoredHops(cars[last].route);
      var before := AllHops(cars[..last]);
      ScoreHopsKeys(mid, streets, hops, HopScores(|hops|), |hops|, j);
      assert hops[..|hops|] == hops;
      AddKeysAppend(Keys(t.global), before, hops);
      EndingAtAppend(streets, before, hops, j);
      AddKeysAppend(Keys(t.ints[j].inScores), EndingAt(streets, before, j), EndingAt(streets, hops, j));
    }
  }
}
