/** Schedule assignment (`schedule_one_way_in_intersections`, then
    `schedule_round_robin`): a lone incoming street gets weight 1; otherwise
    the scored streets get their pressure counts; failing that, every
    incoming street gets weight 1. */
module Assignment {
  import opened Dicts
  import opened Network

  /** The street ids an intersection refers to are known streets. */
  ghost predicate RefsOk(x: Intersection, streets: seq<Street>)
  {
    && (forall i :: 0 <= i < |x.incoming| ==> x.incoming[i] < |streets|)
    && (forall i :: 0 <= i < |x.inScores| ==> x.inScores[i].0 < |streets|)
  }

  /** `schedule_one_way_in_intersections` on one intersection. */
  function OneWay(x: Intersection, streets: seq<Street>): Intersection
    requires RefsOk(x, streets)
  {
    if |x.incoming| == 1 then x.(schedule := [(streets[x.incoming[0]].name, 1)]) else x
  }

  /** The schedule after copying the first `k` pressure counts into it,
      each under its street's name. */
  function FromPressure(sched: Dict<string, int>, scores: Dict<nat, int>, streets: seq<Street>, k: nat)
    : Dict<string, int>
    requires k <= |scores|
    requires forall i :: 0 <= i < |scores| ==> scores[i].0 < |streets|
  {
    if k == 0 then sched
    else Put(FromPressure(sched, scores, streets, k - 1), streets[scores[k - 1].0].name, scores[k - 1].1)
  }

  /** The schedule after giving the first `k` of `ids` weight 1. */
  function Uniform(sched: Dict<string, int>, ids: seq<nat>, streets: seq<Street>, k: nat): Dict<string, int>
    requires k <= |ids|
    requires forall i :: 0 <= i < |ids| ==> ids[i] < |streets|
  {
    if k == 0 then sched
    else Put(Uniform(sched, ids, streets, k - 1), streets[ids[k - 1]].name, 1)
  }

  /** `schedule_round_robin` on one intersection: only an empty schedule is
      filled, from the pressure dict when it has entries, uniformly
      otherwise. */
  function RoundRobin(x: Intersection, streets: seq<Street>): Intersection
    requires RefsOk(x, streets)
  {
    if |x.schedule| == 0 then
      if |x.inScores| > 0 then x.(schedule := FromPressure(x.schedule, x.inScores, streets, |x.inScores|))
      else x.(schedule := Uniform(x.schedule, x.incoming, streets, |x.incoming|))
    else x
  }

  /** Both assignment passes on one intersection. */
  function Assign(x: Intersection, streets: seq<Street>): Intersection
    requires RefsOk(x, streets)
  {
    RoundRobin(OneWay(x, streets), streets)
  }

  /** What the scorer leaves for the assigner: an empty schedule and a
      pressure dict over distinct incoming streets with counts of at least 1,
      incoming ids listed once each. */
  ghost predicate ReadyToAssign(x: Intersection, streets: seq<Street>)
  {
    && RefsOk(x, streets)
    && x.schedule == []
    && DistinctKeys(x.inScores)
    && (forall i :: 0 <= i < |x.inScores| ==> x.inScores[i].0 in x.incoming && x.inScores[i].1 >= 1)
    && (forall a, b :: 0 <= a < b < |x.incoming| ==> x.incoming[a] != x.incoming[b])
  }

  /** The street names of a dict's keys are distinct. */
  ghost predicate DistinctNames(scores: Dict<nat, int>, streets: seq<Street>)
    requires forall i :: 0 <= i < |scores| ==> scores[i].0 < |streets|
  {
    forall a, b :: 0 <= a < b < |scores| ==> streets[scores[a].0].name != streets[scores[b].0].name
  }

  /** Each of the first `k` scored streets' names is a key. */
  lemma {:induction false} FromPressureHasKeys(sched: Dict<string, int>, scores: Dict<nat, int>, streets: seq<Street>, k: nat)
    requires k <= |scores|
    requires forall i :: 0 <= i < |scores| ==> scores[i].0 < |streets|
    ensures forall i :: 0 <= i < k ==> HasKey(FromPressure(sched, scores, streets, k), streets[scores[i].0].name)
  {
    if k > 0 {
      FromPressureHasKeys(sched, scores, streets, k - 1);
      var prev := FromPressure(sched, scores, streets, k - 1);
      forall i | 0 <= i < k
        ensures HasKey(FromPressure(sched, scores, streets, k), streets[scores[i].0].name)
      {
        GetOrPut(prev, streets[scores[k - 1].0].name, scores[k - 1].1, streets[scores[i].0].name, 0);
      }
    }
  }

  /** Each of the first `k` ids' names is a key. */
  lemma {:induction false} UniformHasKeys(sched: Dict<string, int>, ids: seq<nat>, streets: seq<Street>, k: nat)
    requires k <= |ids|
    requires forall i :: 0 <= i < |ids| ==> ids[i] < |streets|
    ensures forall i :: 0 <= i < k ==> HasKey(Uniform(sched, ids, streets, k), streets[ids[i]].name)
  {
    if k > 0 {
      UniformHasKeys(sched, ids, streets, k - 1);
      var prev := Uniform(sched, ids, streets, k - 1);
      forall i | 0 <= i < k
        ensures HasKey(Uniform(sched, ids, streets, k), streets[ids[i]].name)
      {
        GetOrPut(prev, streets[ids[k - 1]].name, 1, streets[ids[i]].name, 0);
      }
    }
  }

  /** With distinct names, filling an empty schedule from the pressure dict
      copies it entry by entry, in its order, under the streets' names. */
  lemma {:induction false} FromPressureExact(scores: Dict<nat, int>, streets: seq<Street>, k: nat)
    requires k <= |scores|
    requires forall i :: 0 <= i < |scores| ==> scores[i].0 < |streets|
    requires DistinctNames(scores, streets)
    ensures FromPressure([], scores, streets, k)
      == seq(k, i requires 0 <= i < k => (streets[scores[i].0].name, scores[i].1))
  {
    if k > 0 {
      FromPressureExact(scores, streets, k - 1);
      var prev := FromPressure([], scores, streets, k - 1);
      var name := streets[scores[k - 1].0].name;
      assert forall i :: 0 <= i < |prev| ==> prev[i].0 != name;
      assert !HasKey(prev, name);
    }
  }

  /** With distinct ids and unique names, the uniform schedule lists every
      id's name once, with weight 1, in the order of `ids`. */
  lemma {:induction false} UniformExact(ids: seq<nat>, streets: seq<Street>, k: nat)
    requires k <= |ids|
    requires forall i :: 0 <= i < |ids| ==> ids[i] < |streets|
    requires forall a, b :: 0 <= a < b < |ids| ==> ids[a] != ids[b]
    requires UniqueNames(streets)
    ensures Uniform([], ids, streets, k) == seq(k, i requires 0 <= i < k => (streets[ids[i]].name, 1))
  {
    if k > 0 {
      UniformExact(ids, streets, k - 1);
      var prev := Uniform([], ids, streets, k - 1);
      var name := streets[ids[k - 1]].name;
      assert forall i :: 0 <= i < |prev| ==> prev[i].0 != name;
      assert !HasKey(prev, name);
    }
  }

  /** The three branches of assignment, and that exactly the intersections
      with incoming streets end up with a schedule, every weight at least 1,
      and nothing but the schedule changed. */
  lemma AssignSpec(x: Intersection, streets: seq<Street>)
    requires ReadyToAssign(x, streets) && UniqueNames(streets)
    ensures var r := Assign(x, streets).schedule;
      && (|x.incoming| == 1 ==> r == [(streets[x.incoming[0]].name, 1)])
      && (|x.incoming| != 1 && |x.inScores| > 0 ==>
            r == seq(|x.inScores|, i requires 0 <= i < |x.inScores| => (streets[x.inScores[i].0].name, x.inScores[i].1)))
      && (|x.incoming| != 1 && |x.inScores| == 0 ==>
            r == seq(|x.incoming|, i requires 0 <= i < |x.incoming| => (streets[x.incoming[i]].name, 1)))
      && (r != [] <==> x.incoming != [])
      && (forall i :: 0 <= i < |r| ==> r[i].1 >= 1)
      && DistinctKeys(r)
      && Assign(x, streets) == x.(schedule := r)
  {
    if |x.incoming| != 1 {
      if |x.inScores| > 0 {
        AssignFromPressure(x, streets);
      } else {
        AssignUniform(x, streets);
      }
    }
  }

  /** The round-robin branch with pressure counts: the schedule is the
      pressure dict under the streets' names. */
  lemma AssignFromPressure(x: Intersection, streets: seq<Street>)
    requires ReadyToAssign(x, streets) && UniqueNames(streets)
    requires |x.incoming| != 1 && |x.inScores| > 0
    ensures var r := Assign(x, streets).schedule;
      && r == seq(|x.inScores|, i requires 0 <= i < |x.inScores| => (streets[x.inScores[i].0].name, x.inScores[i].1))
      && r != [] && x.incoming != []
      && (forall i :: 0 <= i < |r| ==> r[i].1 >= 1)
      && DistinctKeys(r)
  {
    assert x.inScores[0].0 in x.incoming;
    assert DistinctNames(x.inScores, streets);
    FromPressureExact(x.inScores, streets, |x.inScores|);
  }

  /** The round-robin branch without pressure counts: every incoming
      street's name with weight 1. */
  lemma AssignUniform(x: Intersection, streets: seq<Street>)
    requires ReadyToAssign(x, streets) && UniqueNames(streets)
    requires |x.incoming| != 1 && |x.inScores| == 0
    ensures var r := Assign(x, streets).schedule;
      && r == seq(|x.incoming|, i requires 0 <= i < |x.incoming| => (streets[x.incoming[i]].name, 1))
      && (r != [] <==> x.incoming != [])
      && (forall i :: 0 <= i < |r| ==> r[i].1 >= 1)
      && DistinctKeys(r)
  {
    UniformExact(x.incoming, streets, |x.incoming|);
  }

  /** Every key of an assigned schedule is the name of a street entering
      the intersection. */
  lemma AssignNames(x: Intersection, streets: seq<Street>)
    requires ReadyToAssign(x, streets) && UniqueNames(streets)
    ensures var r := Assign(x, streets).schedule;
      forall i :: 0 <= i < |r| ==> exists s :: 0 <= s < |streets| && s in x.incoming && streets[s].name == r[i].0
  {
    AssignSpec(x, streets);
    var r := Assign(x, streets).schedule;
    forall i | 0 <= i < |r|
      ensures exists s :: 0 <= s < |streets| && s in x.incoming && streets[s].name == r[i].0
    {
      if |x.incoming| == 1 {
        assert streets[x.incoming[0]].name == r[i].0;
      } else if |x.inScores| > 0 {
        assert streets[x.inScores[i].0].name == r[i].0;
      } else {
        assert x.incoming[i] in x.incoming;
        assert streets[x.incoming[i]].name == r[i].0;
      }
    }
  }

  /** Whatever the names, an intersection with incoming streets (or an
      existing schedule) has a non-empty schedule after assignment. */
  lemma AssignNonEmpty(x: Intersection, streets: seq<Street>)
    requires RefsOk(x, streets)
    ensures |x.incoming| > 0 || |x.schedule| > 0 ==> |Assign(x, streets).schedule| > 0
  {
    var y := OneWay(x, streets);
    if |y.schedule| == 0 && |x.incoming| > 0 {
      if |y.inScores| > 0 {
        FromPressureHasKeys(y.schedule, y.inScores, streets, |y.inScores|);
      } else {
        UniformHasKeys(y.schedule, y.incoming, streets, |y.incoming|);
      }
    }
  }

  /** Whatever the names, an assigned schedule has distinct keys. */
  lemma {:induction false} FromPressureDistinct(sched: Dict<string, int>, scores: Dict<nat, int>, streets: seq<Street>, k: nat)
    requires k <= |scores| && DistinctKeys(sched)
    requires forall i :: 0 <= i < |scores| ==> scores[i].0 < |streets|
    ensures DistinctKeys(FromPressure(sched, scores, streets, k))
  {
    if k > 0 {
      FromPressureDistinct(sched, scores, streets, k - 1);
      PutDistinct(FromPressure(sched, scores, streets, k - 1), streets[scores[k - 1].0].name, scores[k - 1].1);
    }
  }

  lemma {:induction false} UniformDistinct(sched: Dict<string, int>, ids: seq<nat>, streets: seq<Street>, k: nat)
    requires k <= |ids| && DistinctKeys(sched)
    requires forall i :: 0 <= i < |ids| ==> ids[i] < |streets|
    ensures DistinctKeys(Uniform(sched, ids, streets, k))
  {
    if k > 0 {
      UniformDistinct(sched, ids, streets, k - 1);
      PutDistinct(Uniform(sched, ids, streets, k - 1), streets[ids[k - 1]].name, 1);
    }
  }

  lemma AssignDistinct(x: Intersection, streets: seq<Street>)
    requires RefsOk(x, streets) && DistinctKeys(x.schedule)
    ensures DistinctKeys(Assign(x, streets).schedule)
  {
    var y := OneWay(x, streets);
    if |y.schedule| == 0 {
      FromPressureDistinct(y.schedule, y.inScores, streets, |y.inScores|);
      UniformDistinct(y.schedule, y.incoming, streets, |y.incoming|);
    }
  }

  /** A street that is scored at an intersection always has a schedule entry
      there after assignment, whatever the names. */
  lemma AssignCovers(x: Intersection, streets: seq<Street>, i: nat)
    requires ReadyToAssign(x, streets) && i < |x.inScores|
    ensures HasKey(Assign(x, streets).schedule, streets[x.inScores[i].0].name)
  {
    if |x.incoming| == 1 {
      assert x.inScores[i].0 in x.incoming;
    } else {
      FromPressureHasKeys([], x.inScores, streets, |x.inScores|);
    }
  }

  /** The documented gap: at an intersection with several incoming streets
      and some pressure, an incoming street no route scored gets no entry. */
  lemma UnscoredStreetStarves(x: Intersection, streets: seq<Street>, s: nat)
    requires ReadyToAssign(x, streets) && UniqueNames(streets)
    requires |x.incoming| > 1 && |x.inScores| > 0
    requires s in x.incoming && !HasKey(x.inScores, s)
    ensures !HasKey(Assign(x, streets).schedule, streets[s].name)
  {
    AssignSpec(x, streets);
    var r := Assign(x, streets).schedule;
    forall i | 0 <= i < |r|
      ensures r[i].0 != streets[s].name
    {
      assert x.inScores[i].0 != s;
    }
  }
}
