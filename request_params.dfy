/**
 * The request-parameter normaliser of the collections controller: the
 * query-string hash of a collection search is turned into the parameter set
 * sent to the catalog (portal scoping, feature expansion, forced tag
 * inclusion and the relevancy-dependent sort key).
 *
 * The parameter hash is flat: every value is either one string or a list of
 * strings (a repeated `key[]=` parameter). Keys are compared as strings, as
 * a hash with indifferent access does.
 */
module RequestParams {
  import opened Wrappers

  datatype Value = Scalar(s: string) | List(items: seq<string>)

  type Params = map<string, Value>

  /** The configured catalog tag namespace (a deployment setting). */
  const CmrTagNamespace: string := "edsc"

  const SubsettingServices: string := "Subsetting Services"
  const MapImagery: string := "Map Imagery"
  const NearRealTime: string := "Near Real Time"

  const SubsetServiceTag: string := CmrTagNamespace + ".extra.subset_service*"
  const GibsTag: string := CmrTagNamespace + ".extra.gibs"
  /** The two tag patterns of `include_tags`, joined with a comma. */
  const IncludeTags: string := CmrTagNamespace + ".*" + "," + "org.ceos.wgiss.cwic.granules.prod"
  const NearRealTimeType: string := "NEAR_REAL_TIME"

  /** Fields whose presence makes the catalog sort by relevancy score. */
  const RelevancyFields: set<string> :=
    {"keyword", "free_text", "platform", "instrument", "sensor",
     "two_d_coordinate_system_name", "science_keywords", "project",
     "processing_level_id", "data_center", "archive_center"}

  /** The keys the normaliser writes or removes itself. */
  const ManagedKeys: set<string> :=
    {"features", "test_facets", "include_facets", "tag_key",
     "collection_data_type", "include_tags", "sort_key"}

  /** `params[key]`, with `None` for a missing key. */
  function Get(p: Params, key: string): Option<Value>
  {
    if key in p then Some(p[key]) else None
  }

  /** Ruby's `Array.wrap`: nil is the empty list, a scalar a one-element list. */
  function Wrap(v: Option<Value>): seq<string>
  {
    match v
    case None => []
    case Some(Scalar(s)) => [s]
    case Some(List(items)) => items
  }

  /**
   * `deep_merge!` of the portal's parameters into the request's, with the
   * block of the controller: two lists are concatenated (the request's items
   * first), in every other clash the portal's value wins.
   */
  function DeepMerge(user: Params, portal: Params): (r: Params)
    ensures r.Keys == user.Keys + portal.Keys
    ensures forall k :: k in user && k !in portal ==> r[k] == user[k]
    ensures forall k :: k in user && k in portal && user[k].List? && portal[k].List? ==>
      r[k] == List(user[k].items + portal[k].items)
    ensures forall k :: k in portal && !(k in user && user[k].List? && portal[k].List?) ==>
      r[k] == portal[k]
  {
    map k | k in user.Keys + portal.Keys ::
      if k !in portal then user[k]
      else if k in user && user[k].List? && portal[k].List? then List(user[k].items + portal[k].items)
      else portal[k]
  }

  /** A deployment without portal parameters leaves the request as it is. */
  lemma DeepMergeEmptyPortal(user: Params)
    ensures DeepMerge(user, map[]) == user
  {
  }

  /**
   * The request after its first two steps: the portal selector removed and
   * the portal's parameters merged in when a portal with parameters is
   * active. Only a portal whose own parameters name `portal` can bring the
   * selector back.
   */
  function PortalScoped(query: Params, portal: Option<Params>): (r: Params)
    ensures "portal" in r <==> portal.Some? && "portal" in portal.value
  {
    var p := query - {"portal"};
    if portal.Some? then DeepMerge(p, portal.value) else p
  }

  /**
   * The sort order the catalog is asked for: granule-bearing collections
   * first, then by score when a relevancy field is present and by title
   * otherwise.
   */
  function SortKeyFor(p: Params): (r: seq<string>)
    ensures |r| == 2 && r[0] == "has_granules"
    ensures r[1] == "score" <==> exists f :: f in RelevancyFields && f in p
    ensures r[1] == "entry_title" <==> forall f :: f in RelevancyFields ==> f !in p
  {
    if p.Keys * RelevancyFields == {} then
      assert forall f :: f in RelevancyFields ==> f !in p by {
        forall f | f in RelevancyFields ensures f !in p {
          assert f !in p.Keys * RelevancyFields;
        }
      }
      ["has_granules", "entry_title"]
    else
      assert exists f :: f in p.Keys * RelevancyFields;
      ["has_granules", "score"]
  }

  lemma SortKeyExamples()
    ensures SortKeyFor(map["keyword" := Scalar("ocean")]) == ["has_granules", "score"]
    ensures SortKeyFor(map[]) == ["has_granules", "entry_title"]
    ensures SortKeyFor(map["page_num" := Scalar("1"), "tag_key" := List([])]) == ["has_granules", "entry_title"]
  {
  }

  /**
   * `relevancy_param`: sets `sort_key` to `has_granules` and then pushes the
   * second key chosen by the relevancy fields present in the hash; every
   * other entry is left alone.
   */
  method RelevancyParam(params: Params) returns (r: Params)
    ensures Get(r, "sort_key") == Some(List(SortKeyFor(params)))
    ensures forall k :: k != "sort_key" ==> Get(r, k) == Get(params, k)
  {
    r := params["sort_key" := List(["has_granules"])];
    // `sort_key` is not a relevancy field, so the keys test sees the same
    // relevancy fields as the caller's hash
    assert r.Keys * RelevancyFields == params.Keys * RelevancyFields;
    if r.Keys * RelevancyFields == {} {
      r := r["sort_key" := List(r["sort_key"].items + ["entry_title"])];
      assert r["sort_key"].items == SortKeyFor(params);
    } else {
      r := r["sort_key" := List(r["sort_key"].items + ["score"])];
      assert r["sort_key"].items == SortKeyFor(params);
    }
  }

  /** The tags a set of requested features adds to `tag_key`, in fixed order. */
  function FeatureTags(features: seq<string>): (r: seq<string>)
    ensures SubsettingServices in features && MapImagery in features ==> r == [SubsetServiceTag, GibsTag]
    ensures SubsettingServices in features && MapImagery !in features ==> r == [SubsetServiceTag]
    ensures SubsettingServices !in features && MapImagery in features ==> r == [GibsTag]
    ensures SubsettingServices !in features && MapImagery !in features ==> r == []
  {
    (if SubsettingServices in features then [SubsetServiceTag] else [])
    + (if MapImagery in features then [GibsTag] else [])
  }

  /**
   * The order in which features are listed, and repetitions, do not matter:
   * only which features are requested does.
   */
  lemma FeatureTagsIgnoreOrder(f1: seq<string>, f2: seq<string>)
    requires forall x :: x in f1 <==> x in f2
    ensures FeatureTags(f1) == FeatureTags(f2)
  {
  }

  /** `p` and `q` agree on every key the normaliser does not manage. */
  ghost predicate Unmanaged(p: Params, q: Params)
  {
    forall k :: k !in ManagedKeys ==> Get(p, k) == Get(q, k)
  }

  /** The normaliser manages no relevancy field, so the sort key survives. */
  lemma UnmanagedSortKey(p: Params, q: Params)
    requires Unmanaged(p, q)
    ensures SortKeyFor(p) == SortKeyFor(q)
  {
    forall f | f in RelevancyFields
      ensures f in p <==> f in q
    {
      assert f !in ManagedKeys;
      assert Get(p, f) == Get(q, f);
    }
  }

  /**
   * The test-environment hook: `test_facets` is always removed, and in the
   * test environment `include_facets` goes too unless `test_facets` was
   * given.
   */
  method DropTestFacets(p: Params, testEnv: bool) returns (r: Params)
    ensures Get(r, "test_facets") == None
    ensures Get(r, "include_facets") == if testEnv && "test_facets" !in p then None else Get(p, "include_facets")
    ensures forall k :: k != "test_facets" && k != "include_facets" ==> Get(r, k) == Get(p, k)
  {
    r := p;
    var testFacets := Get(r, "test_facets");
    r := r - {"test_facets"};
    if testEnv && testFacets.None? {
      r := r - {"include_facets"};
    }
  }

  /**
   * The feature expansion: `features` is removed; "Subsetting Services" and
   * "Map Imagery" append their tags, in that order, after the existing
   * `tag_key` values; "Near Real Time" overwrites `collection_data_type`.
   */
  method ExpandFeatures(p: Params) returns (r: Params)
    ensures Get(r, "features") == None
    ensures var tags := FeatureTags(Wrap(Get(p, "features")));
      if tags != [] then Get(r, "tag_key") == Some(List(Wrap(Get(p, "tag_key")) + tags))
      else Get(r, "tag_key") == Get(p, "tag_key")
    ensures if NearRealTime in Wrap(Get(p, "features")) then Get(r, "collection_data_type") == Some(Scalar(NearRealTimeType))
      else Get(r, "collection_data_type") == Get(p, "collection_data_type")
    ensures forall k :: k != "features" && k != "tag_key" && k != "collection_data_type" ==> Get(r, k) == Get(p, k)
  {
    r := p;
    var features := Wrap(Get(r, "features"));
    r := r - {"features"};
    if SubsettingServices in features {
      r := r["tag_key" := List(Wrap(Get(r, "tag_key")))];
      r := r["tag_key" := List(r["tag_key"].items + [SubsetServiceTag])];
    }
    assert SubsettingServices in features ==> Get(r, "tag_key") == Some(List(Wrap(Get(p, "tag_key")) + [SubsetServiceTag]));
    if MapImagery in features {
      r := r["tag_key" := List(Wrap(Get(r, "tag_key")))];
      r := r["tag_key" := List(r["tag_key"].items + [GibsTag])];
    }
    if SubsettingServices in features && MapImagery in features {
      assert Wrap(Get(p, "tag_key")) + [SubsetServiceTag] + [GibsTag]
        == Wrap(Get(p, "tag_key")) + FeatureTags(features);
    }
    if NearRealTime in features {
      r := r["collection_data_type" := Scalar(NearRealTimeType)];
    }
  }

  /**
   * `collection_params_for_request`: the normalised parameter set, stated
   * key by key relative to the portal-scoped request. `testEnv` is the
   * application's test-environment switch.
   */
  method CollectionParamsForRequest(query: Params, portal: Option<Params>, testEnv: bool)
    returns (params: Params)
    // the portal selector is gone unless the portal's own parameters set it
    ensures "portal" in params <==> portal.Some? && "portal" in portal.value
    ensures Get(params, "features") == None && Get(params, "test_facets") == None
    ensures Get(params, "include_tags") == Some(Scalar(IncludeTags))
    ensures Get(params, "sort_key") == Some(List(SortKeyFor(PortalScoped(query, portal))))
    // features expand into `tag_key` appends after the existing tags
    ensures var m := PortalScoped(query, portal);
      var tags := FeatureTags(Wrap(Get(m, "features")));
      if tags != [] then Get(params, "tag_key") == Some(List(Wrap(Get(m, "tag_key")) + tags))
      else Get(params, "tag_key") == Get(m, "tag_key")
    // "Near Real Time" overwrites the data type
    ensures var m := PortalScoped(query, portal);
      if NearRealTime in Wrap(Get(m, "features")) then Get(params, "collection_data_type") == Some(Scalar(NearRealTimeType))
      else Get(params, "collection_data_type") == Get(m, "collection_data_type")
    // the test hook drops `include_facets` unless `test_facets` was given
    ensures var m := PortalScoped(query, portal);
      Get(params, "include_facets") == if testEnv && "test_facets" !in m then None else Get(m, "include_facets")
    // every other parameter passes through
    ensures forall k :: k !in ManagedKeys ==> Get(params, k) == Get(PortalScoped(query, portal), k)
  {
    params := PortalScoped(query, portal);
    ghost var m := params;

    params := DropTestFacets(params, testEnv);
    params := ExpandFeatures(params);
    params := params["include_tags" := Scalar(IncludeTags)];
    assert Unmanaged(params, m);
    UnmanagedSortKey(params, m);
    params := RelevancyParam(params);
    assert Get(params, "portal") == Get(m, "portal");
  }
}
