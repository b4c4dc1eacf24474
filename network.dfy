/** The road network the reader builds: intersections with their incoming
    and outgoing street ids, the streets, the name -> id and id -> end
    intersection maps, and each car's route as street ids. */
module Network {
  import opened Dicts

  /** One street line of the input, already split into its fields
      (start intersection, end intersection, name). */
  datatype StreetRecord = StreetRecord(iStart: nat, iEnd: nat, name: string)

  datatype Street = Street(id: nat, name: string, iStart: nat, iEnd: nat)

  /** A car: its `route_table`, the street ids it drives along, in order. */
  datatype Car = Car(route: seq<nat>)

  /** An intersection record: `in`, `in_scores`, `out` and `schedule`. */
  datatype Intersection = Intersection(
    id: nat,
    incoming: seq<nat>,
    inScores: Dict<nat, int>,
    outgoing: seq<nat>,
    schedule: Dict<string, int>)

  /** The record `initialize_intersections` creates for intersection `i`. */
  function EmptyIntersection(i: nat): Intersection
  {
    Intersection(i, [], [], [], [])
  }

  /** The street `read_streets` creates from the `i`-th street line. */
  function MakeStreet(i: nat, r: StreetRecord): Street
  {
    Street(i, r.name, r.iStart, r.iEnd)
  }

  function MakeStreets(recs: seq<StreetRecord>): seq<Street>
  {
    seq(|recs|, i requires 0 <= i < |recs| => MakeStreet(i, recs[i]))
  }

  /** The intersection a street enters (`incoming`) or leaves (otherwise). */
  function Endpoint(s: Street, incoming: bool): nat
  {
    if incoming then s.iEnd else s.iStart
  }

  /** Ids of the streets entering (`incoming`) or leaving intersection `j`,
      in the order the streets were read. */
  function StreetIdsAt(streets: seq<Street>, j: nat, incoming: bool): seq<nat>
  {
    if |streets| == 0 then []
    else
      var last := |streets| - 1;
      StreetIdsAt(streets[..last], j, incoming)
        + (if Endpoint(streets[last], incoming) == j then [last] else [])
  }

  /** `street_name_id_pairs`: each name maps to the id of the last street
      read with that name. */
  function NameIds(streets: seq<Street>): map<string, nat>
  {
    if |streets| == 0 then map[]
    else
      var last := |streets| - 1;
      NameIds(streets[..last])[streets[last].name := last]
  }

  /** `street_intersection_pairs`: street id -> end intersection. */
  function StreetEnds(streets: seq<Street>): map<nat, nat>
  {
    map k | 0 <= k < |streets| :: streets[k].iEnd
  }

  /** The route of a car line: each street name looked up by id. */
  function Resolve(names: seq<string>, nameIds: map<string, nat>): seq<nat>
    requires forall t :: 0 <= t < |names| ==> names[t] in nameIds
  {
    seq(|names|, t requires 0 <= t < |names| => nameIds[names[t]])
  }

  /** The cars of the car lines, each name resolved to its street id. */
  function ResolveCars(carLines: seq<seq<string>>, nameIds: map<string, nat>): seq<Car>
    requires forall c, t :: 0 <= c < |carLines| && 0 <= t < |carLines[c]| ==> carLines[c][t] in nameIds
  {
    seq(|carLines|, c requires 0 <= c < |carLines| => Car(Resolve(carLines[c], nameIds)))
  }

  /** The records `initialize_intersections` creates. */
  function EmptyIntersections(n: nat): seq<Intersection>
  {
    seq(n, i requires 0 <= i < n => EmptyIntersection(i))
  }

  /** `base` with every intersection's incoming and outgoing lists set from
      `streets`. */
  function Linked(base: seq<Intersection>, streets: seq<Street>): seq<Intersection>
  {
    seq(|base|, j requires 0 <= j < |base| =>
      base[j].(incoming := StreetIdsAt(streets, j, true), outgoing := StreetIdsAt(streets, j, false)))
  }

  lemma StreetIdsAtSnoc(streets: seq<Street>, st: Street, j: nat, incoming: bool)
    ensures StreetIdsAt(streets + [st], j, incoming)
      == StreetIdsAt(streets, j, incoming) + (if Endpoint(st, incoming) == j then [|streets|] else [])
  {
    assert (streets + [st])[..|streets|] == streets;
  }

  /** Reading one more street appends its id to the outgoing list of its
      start and then to the incoming list of its end. */
  lemma LinkStep(base: seq<Intersection>, streets: seq<Street>, st: Street)
    requires st.iStart < |base| && st.iEnd < |base|
    ensures var cur := Linked(base, streets);
      var i := |streets|;
      var o := cur[st.iStart];
      var mid := cur[st.iStart := o.(outgoing := o.outgoing + [i])];
      var x := mid[st.iEnd];
      Linked(base, streets + [st]) == mid[st.iEnd := x.(incoming := x.incoming + [i])]
  {
    var cur := Linked(base, streets);
    var i := |streets|;
    var o := cur[st.iStart];
    var mid := cur[st.iStart := o.(outgoing := o.outgoing + [i])];
    var x := mid[st.iEnd];
    var l := Linked(base, streets + [st]);
    var r := mid[st.iEnd := x.(incoming := x.incoming + [i])];
    forall j | 0 <= j < |base|
      ensures l[j] == r[j]
    {
      StreetIdsAtSnoc(streets, st, j, true);
      StreetIdsAtSnoc(streets, st, j, false);
    }
  }

  /** Reading one more street updates both lookup maps. */
  lemma LookupStep(streets: seq<Street>, st: Street)
    ensures NameIds(streets + [st]) == NameIds(streets)[st.name := |streets|]
    ensures StreetEnds(streets + [st]) == StreetEnds(streets)[|streets| := st.iEnd]
  {
    assert (streets + [st])[..|streets|] == streets;
    var l, r := StreetEnds(streets + [st]), StreetEnds(streets)[|streets| := st.iEnd];
    assert l.Keys == r.Keys;
    forall k | k in l
      ensures l[k] == r[k]
    {
      if k < |streets| {
        assert (streets + [st])[k] == streets[k];
      }
    }
  }

  lemma MakeStreetsSnoc(recs: seq<StreetRecord>, i: nat)
    requires i < |recs|
    ensures MakeStreets(recs[..i + 1]) == MakeStreets(recs[..i]) + [MakeStreet(i, recs[i])]
  {
  }

  /** The intersections once every street is read. */
  function BuiltIntersections(n: nat, streets: seq<Street>): seq<Intersection>
  {
    Linked(EmptyIntersections(n), streets)
  }

  ghost predicate UniqueNames(streets: seq<Street>)
  {
    forall a, b :: 0 <= a < b < |streets| ==> streets[a].name != streets[b].name
  }

  /** The input constraints the reader relies on: every street joins two
      existing intersections. */
  ghost predicate RecordsOk(n: nat, recs: seq<StreetRecord>)
  {
    forall i :: 0 <= i < |recs| ==> recs[i].iStart < n && recs[i].iEnd < n
  }

  /** What the reader guarantees about the graph the solver works on. */
  ghost predicate GraphOk(n: nat, streets: seq<Street>, ints: seq<Intersection>, cars: seq<Car>)
  {
    && |ints| == n
    && (forall k :: 0 <= k < |streets| ==>
          streets[k].id == k && streets[k].iStart < n && streets[k].iEnd < n)
    && (forall j :: 0 <= j < n ==>
          && ints[j].id == j
          && ints[j].incoming == StreetIdsAt(streets, j, true)
          && ints[j].outgoing == StreetIdsAt(streets, j, false))
    && (forall c, t :: 0 <= c < |cars| && 0 <= t < |cars[c].route| ==> cars[c].route[t] < |streets|)
  }

  /** Nothing has been scored or scheduled yet. */
  ghost predicate Unscheduled(ints: seq<Intersection>)
  {
    forall j :: 0 <= j < |ints| ==> ints[j].inScores == [] && ints[j].schedule == []
  }

  /** A street id is listed at intersection `j` exactly when the street
      enters (leaves) `j`, and the list is in increasing id order, so no id
      appears twice. */
  lemma {:induction false} StreetIdsAtSpec(streets: seq<Street>, j: nat, incoming: bool)
    ensures var ids := StreetIdsAt(streets, j, incoming);
      && (forall s: nat :: s in ids <==> s < |streets| && Endpoint(streets[s], incoming) == j)
      && (forall a, b :: 0 <= a < b < |ids| ==> ids[a] < ids[b])
  {
    if |streets| > 0 {
      var last := |streets| - 1;
      var prefix := streets[..last];
      var before := StreetIdsAt(prefix, j, incoming);
      StreetIdsAtSpec(prefix, j, incoming);
      assert forall s: nat :: s < last ==> streets[s] == prefix[s];
      forall a | 0 <= a < |before|
        ensures before[a] < last
      {
        assert before[a] in before;
      }
    }
  }

  /** A name is a key of `street_name_id_pairs` exactly when some street has
      it, and it maps to the last street read with that name. */
  lemma {:induction false} NameIdsSpec(streets: seq<Street>)
    ensures forall name :: name in NameIds(streets) <==> exists k :: 0 <= k < |streets| && streets[k].name == name
    ensures forall name :: name in NameIds(streets) ==>
      var k := NameIds(streets)[name];
      && k < |streets| && streets[k].name == name
      && forall k' :: k < k' < |streets| ==> streets[k'].name != name
  {
    if |streets| > 0 {
      var last := |streets| - 1;
      NameIdsSpec(streets[..last]);
      forall name | exists k :: 0 <= k < |streets| && streets[k].name == name
        ensures name in NameIds(streets)
      {
        var k :| 0 <= k < |streets| && streets[k].name == name;
        if k < last {
          assert streets[..last][k].name == name;
        }
      }
    }
  }

  /** With unique names every street's name maps back to its own id. */
  lemma NameIdsUnique(streets: seq<Street>, k: nat)
    requires UniqueNames(streets) && k < |streets|
    ensures streets[k].name in NameIds(streets) && NameIds(streets)[streets[k].name] == k
  {
    NameIdsSpec(streets);
  }

  /** Reading valid records yields a graph with the guarantees above, in
      which nothing is scheduled yet. */
  lemma BuiltGraphOk(n: nat, recs: seq<StreetRecord>, cars: seq<Car>)
    requires RecordsOk(n, recs)
    requires forall c, t :: 0 <= c < |cars| && 0 <= t < |cars[c].route| ==> cars[c].route[t] < |recs|
    ensures GraphOk(n, MakeStreets(recs), BuiltIntersections(n, MakeStreets(recs)), cars)
    ensures Unscheduled(BuiltIntersections(n, MakeStreets(recs)))
  {
  }
}
