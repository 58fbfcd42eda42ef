# Collection search pipeline of the collections controller

This project models the collection-search pipeline of the Earthdata Search
`CollectionsController` and proves properties of it in Dafny. The pipeline
sits between the browser and the catalog (CMR) and has five parts:

- **Request normaliser** (`collection_params_for_request`, `relevancy_param`),
  module `RequestParams`. It drops the `portal` selector and merges in the
  portal's parameters: two lists are concatenated, otherwise the portal's
  value wins. It also:
  - expands the `features` list into `tag_key` appends or a
    `collection_data_type` overwrite;
  - forces `include_tags`;
  - sets `sort_key` to `has_granules`, then `score` if a relevancy field is
    present and `entry_title` if not.
- **Featured-id resolver** (`get_featured_ids`), module `FeaturedIdResolver`.
  It returns the curated ids followed by a few recent ids. A signed-in
  caller's recent ids come from the user's recent-collection rows; an
  anonymous caller's come from the session.
- **Featured merge** (`add_featured_collections!`), module `FeaturedMerge`.
  - A class `Feed` holds the entry list that the method rewrites in place.
  - Inside an id filter, featured entries are marked.
  - On the first page of an unfiltered search, the featured entries are
    fetched, marked and put in front of the base entries that are not
    featured.
  - A fetch that gets a non-success response, or raises a `StandardError`,
    means there is nothing to feature.
- **Facet decorator** (`add_fake_json_facets` and its use in `index`), module
  `FacetDecorator`. It puts the synthetic "Features" group first among the
  catalog's facet children.
- **Header pass-through** (the `cmr-` header loop of `index`), module
  `ResponseHeaders`.

Modelling choices:
- The parameter hash is a flat `map<string, Value>`. A value is a scalar
  string or a list of strings.
- Keys are compared as plain strings, the way a Rails hash with indifferent
  access compares `:portal` and `'portal'`.
- The test-environment switch `Rails.env.test?` is the boolean parameter
  `testEnv`.
- The tag namespace `Rails.configuration.cmr_tag_namespace` is the constant
  `CmrTagNamespace`. No proof depends on its value.
- `RECENT_DATASET_COUNT` is defined outside the modelled file. It is the
  parameter `recentCount`, so every property holds for any count.
- The curated list `CollectionExtra.featured_ids` is the input `curated`.
- The user's recent rows are an input sequence in the order the database
  returns them. The session list is an optional parameter value, put through
  `Array.wrap`.
- The catalog client is a function `fetch` from a query to one of three
  outcomes: entries, a non-success response, or a raised `StandardError`,
  the only errors `rescue => e` catches.

Behaviours of the code that the model keeps:
- Inside an id filter, non-featured entries get no `featured` attribute at
  all. They are not set to `false`: the branch at lines 91-92 that would do
  that repeats the test of line 81, so it never runs.
- `test_facets` is always removed, even outside the test environment.
- A portal whose own parameters contain `portal` puts the selector back.
- An `echo_collection_id` that is present but blank (`""` or `[]`) turns off
  both the fetch and the marking, so the entries pass through unchanged.

## Model

| member | source | states |
|---|---|---|
| `RequestParams.DeepMerge` | app/controllers/collections_controller.rb:102-110 | the merged keys are the union; a key on one side only keeps its value; two lists give the request's items followed by the portal's; in every other clash the portal's value wins |
| `RequestParams.DeepMergeEmptyPortal` | app/controllers/collections_controller.rb:102-110 | merging no portal parameters leaves the request unchanged |
| `RequestParams.PortalScoped` | app/controllers/collections_controller.rb:99-110 | after the portal steps, `portal` is present exactly when the portal's own parameters contain it |
| `RequestParams.SortKeyFor` | app/controllers/collections_controller.rb:155-166 | the sort key has two elements and starts with `has_granules`; the second is `score` iff some relevancy field is present and `entry_title` iff none is |
| `RequestParams.SortKeyExamples` | app/controllers/collections_controller.rb:159-165 | `{keyword: "ocean"}` sorts by score; `{}` and a request without relevancy fields sort by entry title |
| `RequestParams.RelevancyParam` | app/controllers/collections_controller.rb:155-166 | `sort_key` becomes the relevancy-dependent pair computed from the hash it was given, and every other key is unchanged |
| `RequestParams.FeatureTags` | app/controllers/collections_controller.rb:117-126 | the requested features add the subsetting tag and then the imagery tag, in that order, and nothing else |
| `RequestParams.FeatureTagsIgnoreOrder` | app/controllers/collections_controller.rb:117 | two feature lists with the same members add the same tags, whatever their order or repetitions |
| `RequestParams.DropTestFacets` | app/controllers/collections_controller.rb:112-115 | `test_facets` is always removed; `include_facets` is removed iff in the test environment and no `test_facets` was given; nothing else changes |
| `RequestParams.ExpandFeatures` | app/controllers/collections_controller.rb:117-130 | `features` is removed; with a tag feature, `tag_key` becomes the wrapped old `tag_key` followed by the feature tags, and without one it is unchanged; "Near Real Time" sets `collection_data_type` to `NEAR_REAL_TIME`; nothing else changes |
| `RequestParams.UnmanagedSortKey` | app/controllers/collections_controller.rb:159-161 | two hashes that agree on every key the normaliser does not write get the same sort key |
| `RequestParams.CollectionParamsForRequest` | app/controllers/collections_controller.rb:98-140 | relative to the portal-scoped request: `portal` only if the portal sets it; no `features` or `test_facets`; `include_tags` forced to the fixed two-tag value; `sort_key` from the relevancy fields; `tag_key`, `collection_data_type` and `include_facets` as the feature and test rules say; every other key unchanged |
| `FeaturedIdResolver.UniqElements` | app/controllers/collections_controller.rb:58 | `uniq` keeps exactly the elements of its input |
| `FeaturedIdResolver.UniqNoDuplicates` | app/controllers/collections_controller.rb:58 | `uniq` has no duplicates |
| `FeaturedIdResolver.UniqPrefix` | app/controllers/collections_controller.rb:58 | `uniq` of a list is a prefix of `uniq` of any extension of it |
| `FeaturedIdResolver.UniqOfDistinct` | app/controllers/collections_controller.rb:58 | a duplicate-free list is its own `uniq` |
| `Filters.UnlistedElements` | app/controllers/collections_controller.rb:55 | the order-keeping filter shared by the `not in` query and `delete_if` keeps exactly the elements whose key is not excluded, and never adds any |
| `Filters.UnlistedAppend` | app/controllers/collections_controller.rb:89 | filtering a concatenation filters each part, so the survivors keep their relative order |
| `Filters.UnlistedNone` | app/controllers/collections_controller.rb:89 | when no element's key is excluded, nothing is removed |
| `FeaturedIdResolver.SignedInFeaturedIds` | app/controllers/collections_controller.rb:54-56 | signed in: the curated list comes first, followed by exactly `min(recentCount, n)` ids where `n` is the number of non-curated rows; they are a prefix of those rows in row order, none curated; when `n <= recentCount` every non-curated row is included |
| `FeaturedIdResolver.AnonymousFeaturedIds` | app/controllers/collections_controller.rb:57-59 | anonymous: the prefix of `uniq(curated ++ session)` whose length is exactly the smaller of the curated count plus `recentCount` and the length of that `uniq`; no duplicates; every id curated or from the session |
| `FeaturedIdResolver.AnonymousFeaturedKeepsCurated` | app/controllers/collections_controller.rb:57-59 | anonymous, with a duplicate-free curated list: the curated list comes first, and only non-curated session ids follow |
| `FeaturedIdResolver.AnonymousExample` | app/controllers/collections_controller.rb:57-59 | curated [F1,F2] with session [F1,R1,R2,R3] and count 2 gives [F1,F2,R1,R2] |
| `FeaturedIdResolver.EmptyCuratedLosesRecents` | app/controllers/collections_controller.rb:55 | with no curated ids, the query as written loses the user's recent row, while the intended filter keeps it |
| `FeaturedMerge.FeaturedQuery` | app/controllers/collections_controller.rb:71 | the secondary query is the base query with `echo_collection_id` replaced by the featured ids and nothing else changed |
| `FeaturedMerge.FeaturedFromFetch` | app/controllers/collections_controller.rb:68-79 | nothing is featured unless `page_num` is "1" and there is no `echo_collection_id`; a non-success response or a raised error gives no featured entries; a successful fetch gives its entries |
| `FeaturedMerge.Feed.MarkFeaturedIn` | app/controllers/collections_controller.rb:82-86 | the loop leaves the entry list as the old list with every featured entry marked and the others untouched |
| `FeaturedMerge.Feed.DeleteFeatured` | app/controllers/collections_controller.rb:89 | the loop leaves exactly the old entries whose id is not featured, in order |
| `FeaturedMerge.Feed.Unshift` | app/controllers/collections_controller.rb:90 | the featured entries are put in front of the old list |
| `FeaturedMerge.MarkAllFeatured` | app/controllers/collections_controller.rb:88 | every fetched entry comes back marked `featured = true`, with the same id and fields, in the same order |
| `FeaturedMerge.MergeWithinIdFilter` | app/controllers/collections_controller.rb:81-86 | inside an id filter: same length and order, ids and fields unchanged; an entry is marked iff its id is featured (or it was already marked); non-featured entries are untouched |
| `FeaturedMerge.MergePrependsFeatured` | app/controllers/collections_controller.rb:87-90 | without an id filter and with fetched entries: the fetched entries come first, each marked, followed by the base entries whose id is not featured, each unchanged, kept once and in their original relative order (the filter `DropFeatured` of the base list); when no base id is featured, the base list follows unchanged and in order |
| `FeaturedMerge.MergeNoDuplicateFeatured` | app/controllers/collections_controller.rb:87-90 | when the fetched ids are all featured ids, no id appears both in the featured part and in the rest |
| `FeaturedMerge.MergeNothingFeatured` | app/controllers/collections_controller.rb:87 | with nothing fetched and no id filter, the entry list is returned unchanged |
| `FeaturedMerge.FailedFetchChangesNothing` | app/controllers/collections_controller.rb:70-78 | a non-success response or a raised `StandardError` gives the same list as having nothing to feature |
| `FeaturedMerge.MergeExample` | app/controllers/collections_controller.rb:87-90 | base [A,B,C] with fetched [B,D] gives [B,D,A,C], with B and D marked and A and C untouched |
| `FeaturedMerge.AddFeaturedCollections` | app/controllers/collections_controller.rb:63-96 | the feed's entries end up as `MergedEntries` of the old entries, the resolved featured ids and the fetch outcome for the featured query |
| `FacetDecorator.AddFakeJsonFacets` | app/controllers/collections_controller.rb:168-179 | the decorated children start with the Features group; the catalog's children, if present, follow unchanged; otherwise the Features group is alone |
| `FacetDecorator.FeaturesGroupShape` | app/controllers/collections_controller.rb:169-173 | the Features group is an unapplied group with children: Map Imagery, Near Real Time and Subsetting Services, in that order, each an unapplied filter without children |
| `FacetDecorator.DecorateFacets` | app/controllers/collections_controller.rb:17-18 | a missing facets hash becomes an empty one; its `children` become the decorated list; its other entries stay |
| `FacetDecorator.DecoratedChildren` | app/controllers/collections_controller.rb:17-18 | with missing facets or no children, the result is the Features group alone; otherwise the group is followed by the catalog's children |
| `ResponseHeaders.CopyCmrHeaders` | app/controllers/collections_controller.rb:22-24 | the response gains exactly the catalog headers whose names start with `cmr-`, with the catalog's values; its own other headers keep their values |

## Findings

| source | as written | input that shows it | evidently intended | confidence | as-written member | corrected member |
|---|---|---|---|---|---|---|
| app/controllers/collections_controller.rb:55 | `where('echo_id not in (?)', featured_ids)`: Rails renders an empty id list as `(NULL)`, and `echo_id NOT IN (NULL)` is never true in SQL | signed-in user, no curated ids, one recent row R1: the featured ids are [] | the featured ids are [R1]: the recent rows not already curated | medium; not executed; rests on how Rails quotes an empty array bound to `?` | `FeaturedIdResolver.EmptyCuratedLosesRecents` | `FeaturedIdResolver.SignedInFeaturedIds` |

`FeaturedIdResolver.SignedInFeaturedAsWritten` is the signed-in branch as
written. `FeaturedIdResolver.SignedInFeatured` is the corrected branch, and
`GetFeaturedIds` (and so the merge) uses it.

## Left out

- HTTP plumbing is not modelled: the `show` and `use` actions, `respond_with`, `render`, `metrics_event`, `use_collection`, `CollectionExtra.decorate_all`, `CollectionDetailsPresenter`, and the `success?` gate of `index` around the decoration. These are presentation and routing, not search logic.
- The primary catalog call is not modelled. Only its entries, facets and headers enter the model.
- The secondary catalog call is the function `fetch`, with three outcomes. `Raised` stands for a `StandardError` only. An exception outside `StandardError` is not caught by `rescue => e` (line 74), so it fails the whole request; the model does not represent it.
- Failures outside the `begin` block are not modelled; each one fails the whole request. The database query of `get_featured_ids` (lines 54-56, called at line 66) is not guarded. A nil `base_results['feed']['entry']` makes `each`, `delete_if` or `unshift` raise (lines 82, 89, 90). In the model the feed always holds an entry list and the row query always succeeds.
- `Rails.logger` and `log_execution_time` are left out: they only log.
- `deep_merge!` is modelled on flat hashes only. Nested portal hashes are not merged recursively.
- Ruby hashes keep insertion order and Dafny maps have none, so the order of keys in the outgoing query is not modelled.
- Aliasing is not modelled. `Array.wrap(params['tag_key'])` returns the request's own array when `tag_key` is a list. The hash copy is shallow, so the `<<` appends also change the caller's `query_parameters`.
- `RelevancyParam` returns the updated hash instead of changing the caller's hash in place. Its only caller goes on with the returned hash, so the results are the same.
- `blank?` is modelled for ASCII white space only. Ruby also counts Unicode white space as blank.
- The test hook is decided by the boolean `testEnv`, not by the Rails environment.
- The ActiveRecord query's row order is taken as given, because the query has none. Rows with a nil `echo_id` are not modelled.
- Entries without an `id` are not modelled.
- Facet nodes carry only the attributes the decorator writes. Other catalog attributes of a facet node pass through untouched in the source; the model does not represent them.
- Response header names are compared case-sensitively, as `start_with?` does. Any case folding by the HTTP client is not modelled.
