/** What `write_output` lists for each intersection: its id alone when no
    street enters it, otherwise its schedule sorted by duration, longest
    first, equal durations in schedule order. */
module Output {
  import opened Dicts
  import opened Network
  import opened StableSort

  datatype Section =
    | Bare(id: nat)
    | Listed(id: nat, items: Dict<string, int>)

  /** The section for the intersection at position `i`. */
  function SectionOf(i: nat, x: Intersection): Section
  {
    if |x.incoming| > 0 then Listed(i, SortDesc(x.schedule)) else Bare(i)
  }

  /** The sections for all intersections, in id order. */
  function Sections(ints: seq<Intersection>): seq<Section>
  {
    seq(|ints|, j requires 0 <= j < |ints| => SectionOf(j, ints[j]))
  }

  /** A section lists the schedule exactly when streets enter the
      intersection, and then lists every entry once, longest first, entries
      of equal duration in the order the schedule holds them. */
  lemma SectionSpec(i: nat, x: Intersection)
    ensures SectionOf(i, x).id == i
    ensures SectionOf(i, x).Listed? <==> |x.incoming| > 0
    ensures SectionOf(i, x).Listed? ==>
      var items := SectionOf(i, x).items;
      && |items| == |x.schedule|
      && SortedDesc(items)
      && multiset(items) == multiset(x.schedule)
      && forall v :: WithValue(items, v) == WithValue(x.schedule, v)
  {
    SortDescSpec(x.schedule);
  }
}
