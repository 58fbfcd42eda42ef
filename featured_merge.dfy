/**
 * The featured merge (`add_featured_collections!`): the entry list of a
 * successful collection search is rewritten in place so that featured
 * collections are marked, or fetched and put in front of the page.
 *
 * The catalog client is the function `fetch` from a query to the outcome of
 * that query: entries on success, a non-success response, or a raised error.
 */
module FeaturedMerge {
  import opened Wrappers
  import opened RequestParams
  import opened FeaturedIdResolver
  import opened Filters

  /**
   * A result entry: its `id`, the `featured` attribute the merge may set
   * (`None` while absent) and the catalog's other fields, which the merge
   * never touches.
   */
  datatype Entry = Entry(id: string, featured: Option<bool>, fields: map<string, string>)

  datatype FetchOutcome =
    | Fetched(entries: seq<Entry>)
    | NotSuccessful
    | Raised

  /** Ruby's `blank?` on a parameter value: all-space text or an empty list. */
  predicate Blank(v: Value)
  {
    match v
    case Scalar(s) => forall i :: 0 <= i < |s| ==> IsSpace(s[i])
    case List(items) => items == []
  }

  predicate IsSpace(c: char)
  {
    c == ' ' || c == '\t' || c == '\n' || c == '\r' || c == '\U{000B}' || c == '\U{000C}'
  }

  /** `params[key].present?` */
  predicate Present(p: Params, key: string)
  {
    key in p && !Blank(p[key])
  }

  /** Featured collections are fetched only for the first page of an unfiltered search. */
  predicate ShouldFetchFeatured(q: Params)
  {
    Get(q, "page_num") == Some(Scalar("1")) && "echo_collection_id" !in q
  }

  /** The secondary query: the base query restricted to the featured ids. */
  function FeaturedQuery(q: Params, featuredIds: seq<string>): (r: Params)
    ensures Get(r, "echo_collection_id") == Some(List(featuredIds))
    ensures forall k :: k != "echo_collection_id" ==> Get(r, k) == Get(q, k)
  {
    q["echo_collection_id" := List(featuredIds)]
  }

  /**
   * The featured entries the fetch contributes. Outside the first page of an
   * unfiltered search nothing is fetched; a non-success response or a
   * raised error counts as no featured entries and goes no further.
   */
  function FeaturedFromFetch(q: Params, outcome: FetchOutcome): (featured: seq<Entry>)
    ensures !ShouldFetchFeatured(q) ==> featured == []
    ensures !outcome.Fetched? ==> featured == []
    ensures ShouldFetchFeatured(q) && outcome.Fetched? ==> featured == outcome.entries
  {
    if ShouldFetchFeatured(q) && outcome.Fetched? then outcome.entries else []
  }

  function Mark(e: Entry): Entry
  {
    e.(featured := Some(true))
  }

  /** Every entry whose id is featured gets `featured = true`; the rest stay as they are. */
  function MarkedIn(entries: seq<Entry>, featuredIds: seq<string>): seq<Entry>
  {
    seq(|entries|, i requires 0 <= i < |entries| =>
      if entries[i].id in featuredIds then Mark(entries[i]) else entries[i])
  }

  function MarkAll(entries: seq<Entry>): seq<Entry>
  {
    seq(|entries|, i requires 0 <= i < |entries| => Mark(entries[i]))
  }

  /** An entry's `id`, the key the merge filters on. */
  function EntryId(e: Entry): string
  {
    e.id
  }

  /** `delete_if { |ds| featured_ids.include?(ds['id']) }` */
  function DropFeatured(entries: seq<Entry>, featuredIds: seq<string>): seq<Entry>
  {
    Unlisted(entries, EntryId, featuredIds)
  }

  /** The entry list `base_results['feed']['entry']`, changed in place. */
  class Feed {
    var entry: seq<Entry>

    /** The `each` loop that sets `featured = true` on the featured entries. */
    method MarkFeaturedIn(featuredIds: seq<string>)
      modifies this
      ensures entry == MarkedIn(old(entry), featuredIds)
    {
      ghost var base := entry;
      var i := 0;
      while i < |entry|
        invariant 0 <= i <= |entry| == |base|
        invariant entry[..i] == MarkedIn(base, featuredIds)[..i]
        invariant entry[i..] == base[i..]
      {
        if entry[i].id in featuredIds {
          entry := entry[i := Mark(entry[i])];
        }
        assert entry[i] == MarkedIn(base, featuredIds)[i];
        i := i + 1;
      }
      assert entry == entry[..i];
    }

    /** `delete_if` of the entries whose id is featured. */
    method DeleteFeatured(featuredIds: seq<string>)
      modifies this
      ensures entry == DropFeatured(old(entry), featuredIds)
    {
      var kept: seq<Entry> := [];
      var k := 0;
      while k < |entry|
        invariant 0 <= k <= |entry|
        invariant entry == old(entry)
        invariant kept == DropFeatured(entry[..k], featuredIds)
      {
        UnlistedAppend(entry[..k], [entry[k]], EntryId, featuredIds);
        assert entry[..k + 1] == entry[..k] + [entry[k]];
        assert DropFeatured([entry[k]], featuredIds) == if entry[k].id in featuredIds then [] else [entry[k]] by {
          assert [entry[k]][1..] == [];
        }
        if entry[k].id !in featuredIds {
          kept := kept + [entry[k]];
        }
        k := k + 1;
      }
      assert entry[..k] == entry;
      entry := kept;
    }

    /** `unshift(*featured)` */
    method Unshift(featured: seq<Entry>)
      modifies this
      ensures entry == featured + old(entry)
    {
      entry := featured + entry;
    }
  }

  /** The `each` loop that sets `featured = true` on every fetched entry. */
  method MarkAllFeatured(fetched: seq<Entry>) returns (featured: seq<Entry>)
    ensures |featured| == |fetched|
    ensures forall i :: 0 <= i < |featured| ==>
      featured[i].featured == Some(true) && featured[i].id == fetched[i].id && featured[i].fields == fetched[i].fields
  {
    featured := fetched;
    var j := 0;
    while j < |featured|
      invariant 0 <= j <= |featured| == |fetched|
      invariant featured[..j] == MarkAll(fetched)[..j]
      invariant featured[j..] == fetched[j..]
    {
      featured := featured[j := Mark(featured[j])];
      j := j + 1;
    }
    assert featured == featured[..j];
  }

  /**
   * The entry list after the merge, branch by branch: inside an id filter the
   * featured entries are marked; otherwise a non-empty featured list, every
   * entry marked, goes in front of the base entries that are not featured;
   * otherwise the list is unchanged.
   */
  function MergedEntries(q: Params, base: seq<Entry>, featuredIds: seq<string>, featured: seq<Entry>): seq<Entry>
  {
    if Present(q, "echo_collection_id") then MarkedIn(base, featuredIds)
    else if featured != [] then MarkAll(featured) + DropFeatured(base, featuredIds)
    else base
  }

  /**
   * Within an id filter the list keeps its length and order; a featured
   * entry gets `featured = true`, every other entry is left exactly as it
   * was (never `featured = false`).
   */
  lemma MergeWithinIdFilter(q: Params, base: seq<Entry>, featuredIds: seq<string>, featured: seq<Entry>)
    requires Present(q, "echo_collection_id")
    ensures var r := MergedEntries(q, base, featuredIds, featured);
      && |r| == |base|
      && (forall i :: 0 <= i < |r| ==> r[i].id == base[i].id && r[i].fields == base[i].fields)
      && (forall i :: 0 <= i < |r| ==> (r[i].featured == Some(true) <==> base[i].id in featuredIds || base[i].featured == Some(true)))
      && (forall i :: 0 <= i < |r| && base[i].id !in featuredIds ==> r[i] == base[i])
  {
  }

  /**
   * Without an id filter and with featured entries: the featured entries,
   * all marked and in the fetched order, followed by the base entries whose
   * id is not featured, unchanged, each of them kept.
   */
  lemma {:induction false} MergePrependsFeatured(q: Params, base: seq<Entry>, featuredIds: seq<string>, featured: seq<Entry>)
    requires !Present(q, "echo_collection_id") && featured != []
    ensures var r := MergedEntries(q, base, featuredIds, featured);
      && |featured| <= |r| <= |featured| + |base|
      && (forall i :: 0 <= i < |featured| ==> r[i] == featured[i].(featured := Some(true)))
      && (forall e :: e in r[|featured|..] <==> e in base && e.id !in featuredIds)
      && r[|featured|..] == DropFeatured(base, featuredIds)
    ensures (forall e :: e in base ==> e.id !in featuredIds) ==>
      MergedEntries(q, base, featuredIds, featured)[|featured|..] == base
  {
    var r := MergedEntries(q, base, featuredIds, featured);
    UnlistedElements(base, EntryId, featuredIds);
    if forall e :: e in base ==> e.id !in featuredIds {
      UnlistedNone(base, EntryId, featuredIds);
    }
    assert r[|featured|..] == DropFeatured(base, featuredIds);
  }

  /**
   * When every fetched entry is featured, no id appears both in the
   * featured part and in the rest of the list.
   */
  lemma {:induction false} MergeNoDuplicateFeatured(q: Params, base: seq<Entry>, featuredIds: seq<string>, featured: seq<Entry>)
    requires !Present(q, "echo_collection_id") && featured != []
    requires forall e :: e in featured ==> e.id in featuredIds
    ensures var r := MergedEntries(q, base, featuredIds, featured);
      forall i, j :: 0 <= i < |featured| <= j < |r| ==> r[i].id != r[j].id
  {
    var r := MergedEntries(q, base, featuredIds, featured);
    UnlistedElements(base, EntryId, featuredIds);
    forall i, j | 0 <= i < |featured| <= j < |r|
      ensures r[i].id != r[j].id
    {
      assert featured[i] in featured;
      assert r[j] in r[|featured|..];
    }
  }

  /** With no featured entries and no id filter the list passes through. */
  lemma MergeNothingFeatured(q: Params, base: seq<Entry>, featuredIds: seq<string>)
    requires !Present(q, "echo_collection_id")
    ensures MergedEntries(q, base, featuredIds, []) == base
  {
  }

  /**
   * A failed featured fetch, whether a non-success response or a raised
   * error, leaves the same list as having nothing to feature.
   */
  lemma FailedFetchChangesNothing(q: Params, base: seq<Entry>, featuredIds: seq<string>, outcome: FetchOutcome)
    requires !outcome.Fetched?
    ensures MergedEntries(q, base, featuredIds, FeaturedFromFetch(q, outcome))
      == if Present(q, "echo_collection_id") then MarkedIn(base, featuredIds) else base
  {
  }

  lemma MergeExample()
    ensures var a := Entry("A", None, map[]);
      var b := Entry("B", None, map[]);
      var c := Entry("C", None, map[]);
      var d := Entry("D", None, map[]);
      MergedEntries(map["page_num" := Scalar("1")], [a, b, c], ["B", "D"], [b, d])
        == [Mark(b), Mark(d), a, c]
  {
  }

  /**
   * `add_featured_collections!`: resolves the featured ids, fetches the
   * featured entries when the query asks for the first page without an id
   * filter, and rewrites the feed's entries as `MergedEntries` says.
   */
  method AddFeaturedCollections(baseQuery: Params, curated: seq<string>, caller: Caller, recentCount: nat,
                                fetch: Params -> FetchOutcome, baseResults: Feed)
    modifies baseResults
    ensures var featuredIds := GetFeaturedIds(curated, caller, recentCount);
      baseResults.entry == MergedEntries(baseQuery, old(baseResults.entry), featuredIds,
        FeaturedFromFetch(baseQuery, fetch(FeaturedQuery(baseQuery, featuredIds))))
  {
    var featured: seq<Entry> := [];
    var featuredIds := GetFeaturedIds(curated, caller, recentCount);

    if ShouldFetchFeatured(baseQuery) {
      var featuredQuery := FeaturedQuery(baseQuery, featuredIds);
      match fetch(featuredQuery)
      case Fetched(entries) =>
        featured := entries;
      case NotSuccessful =>
      case Raised =>
        // the error is logged and swallowed
    }
    assert featured == FeaturedFromFetch(baseQuery, fetch(FeaturedQuery(baseQuery, featuredIds)));

    if Present(baseQuery, "echo_collection_id") {
      baseResults.MarkFeaturedIn(featuredIds);
    } else if featured != [] {
      featured := MarkAllFeatured(featured);
      baseResults.DeleteFeatured(featuredIds);
      baseResults.Unshift(featured);
    } else if Present(baseQuery, "echo_collection_id") {
      // repeats the first condition, so this branch is never taken
      assert false;
    }
  }
}
