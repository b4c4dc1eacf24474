/** Top-fraction upscaling (`upscale_fraction_of_best_streets`): the
    n_streets / fraction streets with the highest global scores, by a stable
    descending sort, have their schedule weight at their end intersection
    multiplied by the upscale factor. */
module Upscaling {
  import opened Dicts
  import opened Network
  import opened StableSort
  import opened Arithmetic

  /** `int(n_streets / fraction)` for a positive fraction. */
  function TopCount(nStreets: nat, fraction: nat): nat
    requires 0 < fraction
  {
    nStreets / fraction
  }

  /** `sorted(all_street_scores.items(), by score, reverse=True)[:k]`. */
  function Selected(global: Dict<nat, int>, k: nat): Dict<nat, int>
  {
    var sorted := SortDesc(global);
    if k <= |sorted| then sorted[..k] else sorted
  }

  /** Every selected street is known, and its name is a key of the schedule
      at its end intersection, so the lookup-and-multiply cannot fail. */
  ghost predicate Lookups(ints: seq<Intersection>, streets: seq<Street>, top: Dict<nat, int>)
  {
    && Known(ints, streets, top)
    && forall t :: 0 <= t < |top| ==> HasKey(ints[streets[top[t].0].iEnd].schedule, streets[top[t].0].name)
  }

  /** `schedule[name] *= factor`. A missing key, which the source would
      report as a KeyError, leaves the schedule alone here; it cannot occur
      after assignment, since every selected street has its key at its end
      intersection (`Lookups`, proved by `Pipeline.SelectedLookups`). */
  function Scale(sched: Dict<string, int>, name: string, factor: int): Dict<string, int>
  {
    if HasKey(sched, name) then Put(sched, name, Get(sched, name) * factor) else sched
  }

  /** The selected streets are known and end at known intersections. */
  ghost predicate Known(ints: seq<Intersection>, streets: seq<Street>, top: Dict<nat, int>)
  {
    forall t :: 0 <= t < |top| ==> top[t].0 < |streets| && streets[top[t].0].iEnd < |ints|
  }

  /** Upscaling for the first `k` selected streets, each at its end
      intersection. */
  function UpscaleFirst(ints: seq<Intersection>, streets: seq<Street>, top: Dict<nat, int>, k: nat, factor: int)
    : seq<Intersection>
    requires k <= |top| && Known(ints, streets, top)
  {
    if k == 0 then ints
    else
      var prev := UpscaleFirst(ints, streets, top, k - 1, factor);
      var s := top[k - 1].0;
      var j := streets[s].iEnd;
      if j < |prev| then prev[j := prev[j].(schedule := Scale(prev[j].schedule, streets[s].name, factor))]
      else prev
  }

  /** Only schedule values change, never keys or anything else, so every
      lookup finds its key all along the pass. */
  lemma {:induction false} UpscaleFirstShape(ints: seq<Intersection>, streets: seq<Street>, top: Dict<nat, int>, k: nat, factor: int)
    requires k <= |top| && Known(ints, streets, top)
    ensures var r := UpscaleFirst(ints, streets, top, k, factor);
      && |r| == |ints|
      && forall j :: 0 <= j < |ints| ==>
        Keys(r[j].schedule) == Keys(ints[j].schedule) && r[j] == ints[j].(schedule := r[j].schedule)
  {
    if k > 0 {
      UpscaleFirstShape(ints, streets, top, k - 1, factor);
      var prev := UpscaleFirst(ints, streets, top, k - 1, factor);
      var s := top[k - 1].0;
      var j := streets[s].iEnd;
      var d := prev[j].schedule;
      var name := streets[s].name;
      if HasKey(d, name) {
        PutSpec(d, name, Get(d, name) * factor);
      }
    }
  }

  /** The whole pass: nothing happens when k is 0. */
  function Upscale(ints: seq<Intersection>, streets: seq<Street>, global: Dict<nat, int>, fraction: nat, factor: int)
    : seq<Intersection>
    requires 0 < fraction
    requires Known(ints, streets, Selected(global, TopCount(|streets|, fraction)))
  {
    var k := TopCount(|streets|, fraction);
    if k == 0 then ints
    else
      var top := Selected(global, k);
      UpscaleFirst(ints, streets, top, |top|, factor)
  }

  /** `w` multiplied by `factor`, `e` times over. */
  function Scaled(w: int, factor: int, e: nat): int
  {
    if e == 0 then w else Scaled(w, factor, e - 1) * factor
  }

  /** How many of the first `k` selected streets end at `j` and are named
      `name`. */
  function Hits(top: Dict<nat, int>, streets: seq<Street>, k: nat, j: nat, name: string): nat
    requires k <= |top|
    requires forall t :: 0 <= t < |top| ==> top[t].0 < |streets|
  {
    if k == 0 then 0
    else
      var s := top[k - 1].0;
      Hits(top, streets, k - 1, j, name) + (if streets[s].iEnd == j && streets[s].name == name then 1 else 0)
  }

  /** Some of the first `k` selected streets ends at `j` and is named `name`. */
  ghost predicate Chosen(top: Dict<nat, int>, streets: seq<Street>, k: nat, j: nat, name: string)
    requires k <= |top|
    requires forall t :: 0 <= t < |top| ==> top[t].0 < |streets|
  {
    exists t :: 0 <= t < k && streets[top[t].0].iEnd == j && streets[top[t].0].name == name
  }

  /** One step of the pass: the next selected street's entry is present
      at its end intersection and is multiplied there. */
  lemma UpscaleStep(ints: seq<Intersection>, streets: seq<Street>, top: Dict<nat, int>, t: nat, factor: int)
    requires t < |top| && Lookups(ints, streets, top)
    ensures var cur := UpscaleFirst(ints, streets, top, t, factor);
      var s := top[t].0;
      var j := streets[s].iEnd;
      var name := streets[s].name;
      && |cur| == |ints| && HasKey(cur[j].schedule, name)
      && UpscaleFirst(ints, streets, top, t + 1, factor)
           == cur[j := cur[j].(schedule := Put(cur[j].schedule, name, Get(cur[j].schedule, name) * factor))]
  {
    UpscaleFirstShape(ints, streets, top, t, factor);
    var cur := UpscaleFirst(ints, streets, top, t, factor);
    var s := top[t].0;
    var j := streets[s].iEnd;
    SameKeysHasKey(cur[j].schedule, ints[j].schedule, streets[s].name);
  }

  /** One upscaling step on one entry: multiplied when it is the selected
      street's entry at that street's end intersection, unchanged otherwise. */
  lemma UpscaleStepAt(ints: seq<Intersection>, streets: seq<Street>, top: Dict<nat, int>, p: nat, factor: int, j: nat, i: nat)
    requires p < |top| && Known(ints, streets, top)
    requires HasKey(ints[streets[top[p].0].iEnd].schedule, streets[top[p].0].name)
    requires j < |ints| && DistinctKeys(ints[j].schedule) && i < |ints[j].schedule|
    ensures |UpscaleFirst(ints, streets, top, p, factor)| == |UpscaleFirst(ints, streets, top, p + 1, factor)| == |ints|
    ensures |UpscaleFirst(ints, streets, top, p, factor)[j].schedule| == |ints[j].schedule|
    ensures |UpscaleFirst(ints, streets, top, p + 1, factor)[j].schedule| == |ints[j].schedule|
    ensures UpscaleFirst(ints, streets, top, p + 1, factor)[j].schedule[i].0
      == UpscaleFirst(ints, streets, top, p, factor)[j].schedule[i].0
    ensures UpscaleFirst(ints, streets, top, p + 1, factor)[j].schedule[i].1
      == if streets[top[p].0].iEnd == j && UpscaleFirst(ints, streets, top, p, factor)[j].schedule[i].0 == streets[top[p].0].name
         then UpscaleFirst(ints, streets, top, p, factor)[j].schedule[i].1 * factor
         else UpscaleFirst(ints, streets, top, p, factor)[j].schedule[i].1
  {
    UpscaleFirstShape(ints, streets, top, p, factor);
    UpscaleFirstShape(ints, streets, top, p + 1, factor);
    var prev := UpscaleFirst(ints, streets, top, p, factor);
    var s := top[p].0;
    var name := streets[s].name;
    var j0 := streets[s].iEnd;
    var d := prev[j0].schedule;
    SameKeysHasKey(d, ints[j0].schedule, name);
    if j0 == j {
      SameKeysDistinct(d, ints[j].schedule);
      PutAt(d, name, Get(d, name) * factor, i);
      if d[i].0 == name {
        FindDistinct(d, i);
      }
    }
  }

  /** One entry after upscaling for the first `k` selected streets: its key
      stays, its weight is multiplied once per selected street that ends at
      its intersection and carries its name. */
  lemma {:induction false} UpscaleFirstAt(ints: seq<Intersection>, streets: seq<Street>, top: Dict<nat, int>, k: nat, factor: int, j: nat, i: nat)
    requires k <= |top| && Lookups(ints, streets, top)
    requires j < |ints| && DistinctKeys(ints[j].schedule) && i < |ints[j].schedule|
    ensures |UpscaleFirst(ints, streets, top, k, factor)| == |ints|
    ensures |UpscaleFirst(ints, streets, top, k, factor)[j].schedule| == |ints[j].schedule|
    ensures UpscaleFirst(ints, streets, top, k, factor)[j].schedule[i]
      == (ints[j].schedule[i].0, Scaled(ints[j].schedule[i].1, factor, Hits(top, streets, k, j, ints[j].schedule[i].0)))
  {
    if k > 0 {
      var p := k - 1;
      UpscaleFirstAt(ints, streets, top, p, factor, j, i);
      UpscaleHitStep(ints, streets, top, p, factor, j, i);
    }
  }

  /** The induction step of `UpscaleFirstAt`: one more selected street
      multiplies the entry once more exactly when it is a hit. */
  lemma UpscaleHitStep(ints: seq<Intersection>, streets: seq<Street>, top: Dict<nat, int>, p: nat, factor: int, j: nat, i: nat)
    requires p < |top| && Known(ints, streets, top)
    requires HasKey(ints[streets[top[p].0].iEnd].schedule, streets[top[p].0].name)
    requires j < |ints| && DistinctKeys(ints[j].schedule) && i < |ints[j].schedule|
    requires |UpscaleFirst(ints, streets, top, p, factor)| == |ints|
    requires |UpscaleFirst(ints, streets, top, p, factor)[j].schedule| == |ints[j].schedule|
    requires UpscaleFirst(ints, streets, top, p, factor)[j].schedule[i]
      == (ints[j].schedule[i].0, Scaled(ints[j].schedule[i].1, factor, Hits(top, streets, p, j, ints[j].schedule[i].0)))
    ensures |UpscaleFirst(ints, streets, top, p + 1, factor)| == |ints|
    ensures |UpscaleFirst(ints, streets, top, p + 1, factor)[j].schedule| == |ints[j].schedule|
    ensures UpscaleFirst(ints, streets, top, p + 1, factor)[j].schedule[i]
      == (ints[j].schedule[i].0, Scaled(ints[j].schedule[i].1, factor, Hits(top, streets, p + 1, j, ints[j].schedule[i].0)))
  {
    var w := ints[j].schedule[i];
    var s := top[p].0;
    var h := Hits(top, streets, p, j, w.0);
    UpscaleStepAt(ints, streets, top, p, factor, j, i);
    var before := UpscaleFirst(ints, streets, top, p, factor)[j].schedule[i];
    var after := UpscaleFirst(ints, streets, top, p + 1, factor)[j].schedule[i];
    assert before == (w.0, Scaled(w.1, factor, h));
    if streets[s].iEnd == j && w.0 == streets[s].name {
      assert Hits(top, streets, p + 1, j, w.0) == h + 1;
      assert after.1 == Scaled(w.1, factor, h) * factor;
    } else {
      assert Hits(top, streets, p + 1, j, w.0) == h;
      assert after.1 == before.1;
    }
  }

  /** Each entry is multiplied once per selected street that ends at its
      intersection and carries its name; its key and position stay. */
  lemma UpscaleFirstEffect(ints: seq<Intersection>, streets: seq<Street>, top: Dict<nat, int>, k: nat, factor: int)
    requires k <= |top| && Lookups(ints, streets, top)
    requires forall j :: 0 <= j < |ints| ==> DistinctKeys(ints[j].schedule)
    ensures |UpscaleFirst(ints, streets, top, k, factor)| == |ints|
    ensures forall j :: 0 <= j < |ints| ==>
      |UpscaleFirst(ints, streets, top, k, factor)[j].schedule| == |ints[j].schedule|
    ensures var r := UpscaleFirst(ints, streets, top, k, factor);
      forall j, i :: 0 <= j < |ints| && 0 <= i < |ints[j].schedule| ==>
        r[j].schedule[i] == (ints[j].schedule[i].0,
          Scaled(ints[j].schedule[i].1, factor, Hits(top, streets, k, j, ints[j].schedule[i].0)))
  {
    UpscaleFirstShape(ints, streets, top, k, factor);
    forall j, i | 0 <= j < |ints| && 0 <= i < |ints[j].schedule|
      ensures UpscaleFirst(ints, streets, top, k, factor)[j].schedule[i] == (ints[j].schedule[i].0,
          Scaled(ints[j].schedule[i].1, factor, Hits(top, streets, k, j, ints[j].schedule[i].0)))
    {
      UpscaleFirstAt(ints, streets, top, k, factor, j, i);
    }
  }

  /** With unique street names and each street selected at most once, a
      street is hit at most once. */
  lemma {:induction false} HitsAtMostOnce(top: Dict<nat, int>, streets: seq<Street>, k: nat, j: nat, name: string)
    requires k <= |top| && DistinctKeys(top) && UniqueNames(streets)
    requires forall t :: 0 <= t < |top| ==> top[t].0 < |streets|
    ensures Hits(top, streets, k, j, name) == if Chosen(top, streets, k, j, name) then 1 else 0
  {
    if k > 0 {
      HitsAtMostOnce(top, streets, k - 1, j, name);
      var s := top[k - 1].0;
      if streets[s].iEnd == j && streets[s].name == name {
        forall t | 0 <= t < k - 1
          ensures !(streets[top[t].0].iEnd == j && streets[top[t].0].name == name)
        {
          assert top[t].0 != s;
        }
      } else {
        if Chosen(top, streets, k, j, name) {
          var t :| 0 <= t < k && streets[top[t].0].iEnd == j && streets[top[t].0].name == name;
          assert t < k - 1;
        }
      }
    }
  }

  /** One entry after the whole selection, with unique names: multiplied by
      the factor when its street was selected, unchanged otherwise. */
  lemma UpscaleSelectedAt(ints: seq<Intersection>, streets: seq<Street>, top: Dict<nat, int>, factor: int, j: nat, i: nat)
    requires Lookups(ints, streets, top) && DistinctKeys(top) && UniqueNames(streets)
    requires j < |ints| && DistinctKeys(ints[j].schedule) && i < |ints[j].schedule|
    ensures |UpscaleFirst(ints, streets, top, |top|, factor)| == |ints|
    ensures |UpscaleFirst(ints, streets, top, |top|, factor)[j].schedule| == |ints[j].schedule|
    ensures var w := ints[j].schedule[i];
      UpscaleFirst(ints, streets, top, |top|, factor)[j].schedule[i]
        == (w.0, if Chosen(top, streets, |top|, j, w.0) then w.1 * factor else w.1)
  {
    UpscaleFirstAt(ints, streets, top, |top|, factor, j, i);
    HitsAtMostOnce(top, streets, |top|, j, ints[j].schedule[i].0);
  }

  /** The upscaling contract: each entry whose street is among the selected
      ones (at that street's end intersection) is multiplied by the factor,
      every other entry is left as it was, and keys and positions stay. */
  lemma UpscaleSelected(ints: seq<Intersection>, streets: seq<Street>, top: Dict<nat, int>, factor: int)
    requires Lookups(ints, streets, top) && DistinctKeys(top) && UniqueNames(streets)
    requires forall j :: 0 <= j < |ints| ==> DistinctKeys(ints[j].schedule)
    ensures |UpscaleFirst(ints, streets, top, |top|, factor)| == |ints|
    ensures forall j :: 0 <= j < |ints| ==>
      |UpscaleFirst(ints, streets, top, |top|, factor)[j].schedule| == |ints[j].schedule|
    ensures var r := UpscaleFirst(ints, streets, top, |top|, factor);
      forall j, i :: 0 <= j < |ints| && 0 <= i < |ints[j].schedule| ==>
        r[j].schedule[i] == (ints[j].schedule[i].0,
          if Chosen(top, streets, |top|, j, ints[j].schedule[i].0)
          then ints[j].schedule[i].1 * factor
          else ints[j].schedule[i].1)
  {
    UpscaleFirstShape(ints, streets, top, |top|, factor);
    forall j, i | 0 <= j < |ints| && 0 <= i < |ints[j].schedule|
      ensures UpscaleFirst(ints, streets, top, |top|, factor)[j].schedule[i] == (ints[j].schedule[i].0,
          if Chosen(top, streets, |top|, j, ints[j].schedule[i].0)
          then ints[j].schedule[i].1 * factor
          else ints[j].schedule[i].1)
    {
      UpscaleSelectedAt(ints, streets, top, factor, j, i);
    }
  }

  /** With a factor of at least 1, no non-negative weight decreases. */
  lemma {:induction false} ScaledMonotone(w: int, factor: int, e: nat)
    requires factor >= 1 && w >= 0
    ensures Scaled(w, factor, e) >= w
  {
    if e > 0 {
      ScaledMonotone(w, factor, e - 1);
      MulSign(factor, Scaled(w, factor, e - 1));
    }
  }

  /** With a factor of at least 1, upscaling never lowers a non-negative
      weight: every entry afterwards is at least what it was. */
  lemma UpscaleMonotone(ints: seq<Intersection>, streets: seq<Street>, top: Dict<nat, int>, k: nat, factor: int)
    requires k <= |top| && Lookups(ints, streets, top) && factor >= 1
    requires forall j :: 0 <= j < |ints| ==> DistinctKeys(ints[j].schedule)
    requires forall j, i :: 0 <= j < |ints| && 0 <= i < |ints[j].schedule| ==> ints[j].schedule[i].1 >= 0
    ensures |UpscaleFirst(ints, streets, top, k, factor)| == |ints|
    ensures forall j :: 0 <= j < |ints| ==>
      |UpscaleFirst(ints, streets, top, k, factor)[j].schedule| == |ints[j].schedule|
    ensures var r := UpscaleFirst(ints, streets, top, k, factor);
      forall j, i :: 0 <= j < |ints| && 0 <= i < |ints[j].schedule| ==>
        r[j].schedule[i].0 == ints[j].schedule[i].0 && r[j].schedule[i].1 >= ints[j].schedule[i].1
  {
    UpscaleFirstShape(ints, streets, top, k, factor);
    UpscaleFirstEffect(ints, streets, top, k, factor);
    forall j, i | 0 <= j < |ints| && 0 <= i < |ints[j].schedule|
      ensures Scaled(ints[j].schedule[i].1, factor, Hits(top, streets, k, j, ints[j].schedule[i].0)) >= ints[j].schedule[i].1
    {
      ScaledMonotone(ints[j].schedule[i].1, factor, Hits(top, streets, k, j, ints[j].schedule[i].0));
    }
  }

  /** The selection is a top-k: it holds min(k, |global|) of the scored
      streets, each once, and no unselected street scores more than a
      selected one. */
  lemma SelectedIsTop(global: Dict<nat, int>, k: nat)
    requires DistinctKeys(global)
    ensures var top := Selected(global, k);
      && |top| == (if k <= |global| then k else |global|)
      && DistinctKeys(top)
      && (forall t :: 0 <= t < |top| ==> top[t] in global)
      && (forall t, e :: 0 <= t < |top| && e in global && e !in top ==> top[t].1 >= e.1)
  {
    var sorted := SortDesc(global);
    SortDescSpec(global);
    var top := Selected(global, k);
    assert forall e :: e in sorted <==> e in global by {
      forall e ensures e in sorted <==> e in global {
        assert e in multiset(sorted) <==> e in multiset(global);
      }
    }
    PermutedDistinct(global, sorted);
    forall t, e | 0 <= t < |top| && e in global && e !in top
      ensures top[t].1 >= e.1
    {
      var b :| 0 <= b < |sorted| && sorted[b] == e;
      assert b >= |top|;
    }
  }
}
