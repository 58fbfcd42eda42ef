/**
 * The facet decorator (`add_fake_json_facets` and its use in `index`): the
 * synthetic "Features" group is put in front of the catalog's facets.
 */
module FacetDecorator {
  import opened Wrappers

  /**
   * A facet node with the attributes the decorator writes; `children` is
   * `None` when the node has no `children` entry.
   */
  datatype Facet = Facet(title: string, kind: string, applied: bool, hasChildren: bool,
                         children: Option<seq<Facet>>)

  /**
   * The facets hash of the catalog's feed: its `children` entry (`None`
   * when missing) and its other entries.
   */
  datatype FacetRoot = FacetRoot(children: Option<seq<Facet>>, others: map<string, string>)

  function FeatureFilter(title: string): Facet
  {
    Facet(title, "filter", false, false, None)
  }

  const FeaturesGroup: Facet :=
    Facet("Features", "group", false, true,
          Some([FeatureFilter("Map Imagery"), FeatureFilter("Near Real Time"), FeatureFilter("Subsetting Services")]))

  /** Ruby's `present?` on the facets hash: it has at least one entry. */
  predicate PresentRoot(f: FacetRoot)
  {
    f.children.Some? || f.others != map[]
  }

  /**
   * `add_fake_json_facets`: the new children list is the Features group,
   * then the catalog's children, if there are any, unchanged and in order.
   */
  function AddFakeJsonFacets(facets: FacetRoot): (r: seq<Facet>)
    ensures |r| >= 1 && r[0] == FeaturesGroup
    ensures facets.children.Some? ==> r[1..] == facets.children.value
    ensures facets.children.None? ==> r == [FeaturesGroup]
  {
    if PresentRoot(facets) && facets.children.Some? then
      [FeaturesGroup] + facets.children.value
    else
      [FeaturesGroup]
  }

  /** The Features group: an unapplied group of the three feature filters in fixed order. */
  lemma FeaturesGroupShape()
    ensures FeaturesGroup.title == "Features" && FeaturesGroup.kind == "group"
    ensures !FeaturesGroup.applied && FeaturesGroup.hasChildren
    ensures FeaturesGroup.children.Some?
    ensures var cs := FeaturesGroup.children.value;
      && |cs| == 3
      && cs[0].title == "Map Imagery" && cs[1].title == "Near Real Time" && cs[2].title == "Subsetting Services"
      && (forall i :: 0 <= i < 3 ==> cs[i].kind == "filter" && !cs[i].applied && !cs[i].hasChildren)
  {
  }

  /**
   * `index`, lines decorating the facets: a missing facets hash becomes an
   * empty one, and its `children` become the decorated list; its other
   * entries stay.
   */
  function DecorateFacets(facets: Option<FacetRoot>): (r: FacetRoot)
    ensures r.children.Some? && r.children.value == AddFakeJsonFacets(if facets.Some? then facets.value else FacetRoot(None, map[]))
    ensures r.others == if facets.Some? then facets.value.others else map[]
  {
    var f := if facets.Some? then facets.value else FacetRoot(None, map[]);
    f.(children := Some(AddFakeJsonFacets(f)))
  }

  /**
   * A missing or child-less facets hash ends with the Features group alone;
   * otherwise the group is first and the catalog's children follow.
   */
  lemma DecoratedChildren(facets: Option<FacetRoot>)
    ensures var cs := DecorateFacets(facets).children.value;
      if facets.None? || facets.value.children.None? then cs == [FeaturesGroup]
      else cs == [FeaturesGroup] + facets.value.children.value
  {
  }
}
