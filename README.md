# Webshop storefront core, modelled in Dafny

This project models the core of the `webshop` Frappe app's storefront:

- the **facet builder** (`ProductFiltersBuilder`): field facets with a
  per-field-type policy (Link, `primary_supplier`, Check, Select, Table
  MultiSelect), linked-record validity, attribute facets and discount bands;
- the **listing endpoint** (`get_product_filter_data`): the single-pass price
  filter and price sort, the cache key, and the read-through/write-through
  response cache with its developer-mode and failure rules;
- the **search service** (`product_search.py`): query clean-up, the full-text
  search with autocomplete expansion and SQL fallback, thumbnail
  normalisation, category suggestions and the combined `search` endpoint;
- the **search box** (`search.js`): the recent-searches list kept in local
  storage and the input length guards;
- the two **Item hooks**: copying changed Item fields to the Website Item
  through `fetch_from` mappings, and syncing the kitchen flag and supplier.

Database reads, RediSearch, MD5, `get_url`, JSON decoding and local storage
are parameters (values, or functions the caller supplies); a call that raises
is an answer of `None`. Python's `sorted` is modelled once, as a stable
insertion sort (`StableSort`), and Python dicts as insertion-ordered item
sequences (`Basics.Put`, `Basics.Lookup`).

Files: `basics.dfy` (Option, string and dict primitives), `stable_sort.dfy`,
`facets.dfy`, `api.dfy`, `product_search.dfy`, `search_box.dfy`,
`website_item_update.dfy`, `kitchen_item_sync.dfy`.

Behaviour of the code worth noting:

- `get_discount_filters` on [0, 95] gives the bands 0, 10, ..., 100: a minimum
  already on a multiple of 10 is not moved up (`Facets.BandsFromZero`).
- The Check facet's count and the Select facet's values ignore the item group
  and the variant setting. Only the generic Link facet and the supplier facet
  are group-scoped (`Facets.CheckFacetPolicy`, `Facets.SelectFacetValues`).
- `items_count` is the post-filter length when a price bound is given and the
  engine's count otherwise. The asymmetry is kept (`ProductApi.Assembled`).

## Model

| member | source | states |
|---|---|---|
| StableSort.SortBySorted | webshop/webshop/api.py:52-55 | Python's sort gives a permutation of its input, ordered by key in the requested direction |
| StableSort.SortByStable | webshop/templates/pages/product_search.py:117-120 | Python's sort is stable in both directions: items with equal keys keep their input order |
| Facets.GetLinkDoctypeFilters | webshop/webshop/product_data_engine/filters.py:185-206 | `enabled=1`, `disabled=0` and `show_in_website=1` are each in the filter iff the schema has that field; `{}` without a schema |
| Facets.GetFilteredLinkDoctypeRecords | webshop/webshop/product_data_engine/filters.py:170-183 | the valid names are exactly the live records of the linked doctype; empty (fail closed) without a linked doctype or schema |
| Facets.LinkFacetFailsClosed | webshop/webshop/product_data_engine/filters.py:170-183 | a Link or Table MultiSelect facet whose doctype is missing or has no schema is never emitted |
| Facets.ListOf | webshop/webshop/product_data_engine/filters.py:74 | `list(set)` holds each element of the set once |
| Facets.GetSupplierFilterValues | webshop/webshop/product_data_engine/filters.py:117-168 | supplier values are exactly the valid suppliers of all supplier rows of items in scope, without duplicates; [] when no item is in scope |
| Facets.SupplierFacetCoversAllRows | webshop/webshop/product_data_engine/filters.py:133-167 | any valid supplier on any supplier row of an in-scope item is offered, not only primary suppliers |
| Facets.FieldFacet | webshop/webshop/product_data_engine/filters.py:32-113 | one field gives a facet iff its type's policy keeps it, and then the facet's values realise that policy |
| Facets.GetFieldFilters | webshop/webshop/product_data_engine/filters.py:17-115 | None iff no item group and field filters disabled; otherwise the facets the policy keeps, field by field in configured order |
| Facets.ConfiguredFieldsMembers | webshop/webshop/product_data_engine/filters.py:24-30 | only configured names that the Website Item schema has contribute a field, and each of them does |
| Facets.ConfiguredFieldsAppend | webshop/webshop/product_data_engine/filters.py:24-30 | the schema fields keep the configured order |
| Facets.EmittedFacets | webshop/webshop/product_data_engine/filters.py:107-113 | emitted facets come from configured fields, and a facet has an empty value list iff it is a Check facet |
| Facets.CheckFacetPolicy | webshop/webshop/product_data_engine/filters.py:77-111 | a Check facet is emitted with [] iff some published item stores "Evet", whatever the item group or variant setting |
| Facets.PublishedValuesMembers | webshop/webshop/product_data_engine/filters.py:90-97 | the Select query reads exactly the values stored on published items |
| Facets.PositiveOnlyMembers | webshop/webshop/product_data_engine/filters.py:98 | the Select filter keeps exactly the non-empty values other than "Hayır", and keeps them distinct |
| Facets.SelectFacetValues | webshop/webshop/product_data_engine/filters.py:87-98 | a Select facet lists each non-empty, non-"Hayır" value of a published item exactly once |
| Facets.GetAttributeFilters | webshop/webshop/product_data_engine/filters.py:208-236 | None iff no item group and attribute filters disabled; [] without configured attributes; otherwise the per-attribute grouping of the query result in configured order |
| Facets.GroupByAttribute | webshop/webshop/product_data_engine/filters.py:224-226 | each attribute of the query result maps to exactly its values in result order, and only attributes with a value appear |
| Facets.ValuesOfMembers | webshop/webshop/product_data_engine/filters.py:224-226 | an attribute's value list holds exactly the values the query returned for it |
| Facets.AttributeFacetsFacts | webshop/webshop/product_data_engine/filters.py:228-236 | every attribute facet is a configured attribute with its exact non-empty values, and every configured attribute with a value gets a facet |
| Facets.AttributeFacetsAppend | webshop/webshop/product_data_engine/filters.py:228-236 | the attribute facets follow the configured order |
| Facets.GetDiscountFilters | webshop/webshop/product_data_engine/filters.py:238-258 | bands run from the minimum's bound to the maximum's bound in steps of 10, each captioned "{n}% and below" |
| Facets.BandRange | webshop/webshop/product_data_engine/filters.py:254-256 | the `range` loop gives the thresholds lo, lo + 10, ... up to hi, each with its caption, and stops at the first one above hi |
| Facets.BandBoundNonNegative | webshop/webshop/product_data_engine/filters.py:244-252 | for a non-negative discount the bound is its floor rounded up to a multiple of 10 |
| Facets.BandsOnTens | webshop/webshop/product_data_engine/filters.py:238-258 | for 0 <= min <= max every threshold is a multiple of 10, and the first and last are the rounded-up bounds |
| Facets.BandsExample | webshop/webshop/product_data_engine/filters.py:241-252 | [25.89, 60.5] gives exactly 30, 40, 50, 60 |
| Facets.BandsFromZero | webshop/webshop/product_data_engine/filters.py:244-258 | [0, 95] gives eleven bands, 0 through 100 |
| Facets.NegativeBandBound | webshop/webshop/product_data_engine/filters.py:246-251 | `int()` truncation puts a negative fractional discount off the tens (-3.5 gives 1) |
| ProductApi.ApplyPriceFilterAndSort | webshop/webshop/api.py:24-57 | the result is the price-filtered list, price-sorted for a price sort; the input is returned unchanged with no bound and no price sort |
| ProductApi.PriceFilteredNoBounds | webshop/webshop/api.py:33-34 | without bounds the filter keeps every listing |
| ProductApi.PriceFilteredMembers | webshop/webshop/api.py:36-50 | a listing is kept iff it comes from the page and its price passes the bounds |
| ProductApi.PriceFilteredAppend | webshop/webshop/api.py:36-50 | the single pass keeps the kept listings in input order |
| ProductApi.ListingsShownBounds | webshop/webshop/api.py:40-45 | with any bound no listing priced 0 is shown; no positive price below the minimum or above the maximum is shown |
| ProductApi.ListingsShownOrder | webshop/webshop/api.py:47-57 | price_asc ascending, price_desc descending, a stable permutation of the kept listings; other sorts keep input order |
| ProductApi.GenerateCacheKey | webshop/webshop/api.py:60-71 | the key is "product_filter:" + MD5 of the `k:v` parts in sorted key order joined by `|`, dict values as sorted-key JSON |
| ProductApi.ToMapContent | webshop/webshop/api.py:63-64 | the arguments dict maps each of its keys to its value |
| ProductApi.CacheKeyOrderIndependent | webshop/webshop/api.py:60-71 | argument dicts with the same content in any insertion order get the same key |
| ProductApi.OrderByOptions | webshop/webshop/api.py:103-105 | a non-price sort sets the engine's order to its `SORT_OPTIONS` field and direction, an unknown one to "ranking desc"; a price sort or none sets nothing |
| ProductApi.ReadRequest | webshop/webshop/api.py:87-117 | the engine request carries the order, page length, start (0 when `from_filters`), group, search and filters the arguments describe |
| ProductApi.AssemblePage | webshop/webshop/api.py:122-143 | the page holds the filtered items, the post-filter count iff a price bound is set, discount bands iff the engine reported discounts, the settings and the sub-categories |
| ProductApi.QueryAndAssemble | webshop/webshop/api.py:87-143 | the engine is asked the request the arguments describe; the response is the failure message if it raises, else the filtered items, the count rule, discount bands iff discounts, and the sub-categories |
| ProductApi.GetProductFilterData | webshop/webshop/api.py:74-148 | a cache hit outside developer mode returns the cached response without a query; otherwise the response is assembled and cached for 300 s only outside developer mode and when the engine did not raise |
| ProductSearch.CleanUpQuery | webshop/templates/pages/product_search.py:129-130 | the result is no longer than the query and has only alphanumeric and whitespace characters |
| ProductSearch.CleanUpQueryAppend | webshop/templates/pages/product_search.py:129-130 | clean-up distributes over concatenation, so kept characters keep their order |
| ProductSearch.CleanUpQueryChar | webshop/templates/pages/product_search.py:129-130 | a character is kept iff it is alphanumeric or whitespace |
| ProductSearch.CleanUpQueryKeepsClean | webshop/templates/pages/product_search.py:129-130 | a string of kept characters is left unchanged |
| ProductSearch.CleanUpQueryIdempotent | webshop/templates/pages/product_search.py:129-130 | cleaning twice equals cleaning once |
| ProductSearch.CleanUpQueryMembers | webshop/templates/pages/product_search.py:129-130 | a character occurs in the result iff it occurs in the query and is alphanumeric or whitespace |
| ProductSearch.BuildQueryString | webshop/templates/pages/product_search.py:110-112 | the query expression is the cleaned query followed by one `\|('<cleaned suggestion>')` per suggestion in order |
| ProductSearch.ClauseDelimiters | webshop/templates/pages/product_search.py:112 | one suggestion's alternative has exactly one `\|` and two quotes |
| ProductSearch.QueryStringDelimiters | webshop/templates/pages/product_search.py:110-112 | the expression has exactly one `\|` and two quotes per suggestion: suggestions cannot break out of their alternative |
| ProductSearch.Normalize | webshop/templates/pages/product_search.py:133-145 | normalising a row changes only its thumbnail |
| ProductSearch.NormalizeCases | webshop/templates/pages/product_search.py:137-143 | an unset thumbnail takes the website image; a thumbnail not starting with "http" is rewritten through `get_url`; with neither it stays unset |
| ProductSearch.NormalizeIdempotent | webshop/templates/pages/product_search.py:62-69 | when `get_url` yields http URLs, normalising twice equals normalising once |
| ProductSearch.NormalizeThumbnails | webshop/templates/pages/product_search.py:62-69 | each row of the array is replaced in place by its normalised form |
| ProductSearch.GetProductData | webshop/templates/pages/product_search.py:36-71 | the result is the SQL scan's rows for the `%search%` pattern, offset and limit, each normalised |
| ProductSearch.RankedOrder | webshop/templates/pages/product_search.py:117-120 | full-text results are a permutation of the normalised rows, ranking descending, stable among equal rankings |
| ProductSearch.ProductSearch | webshop/templates/pages/product_search.py:85-126 | short query: from_redisearch and [] with no engine call; disabled or failing RediSearch: the SQL scan at offset 0; otherwise the ranked full-text results; fuzzy only for fuzzy_search and a query longer than 3 |
| ProductSearch.DecodeAll | webshop/templates/pages/product_search.py:170 | decoding succeeds iff every payload decodes, and then gives each payload's category in order |
| ProductSearch.GetCategorySuggestions | webshop/templates/pages/product_search.py:148-176 | [] for short queries and on any failure; the Item Group scan when RediSearch is off; the decoded payloads otherwise |
| ProductSearch.Search | webshop/templates/pages/product_search.py:74-82 | [] and [] for short queries; otherwise the products of `product_search` (ranked full text, or the normalised SQL scan on fallback) and the categories of `get_category_suggestions` (Item Group scan, decoded suggestions, or [] on failure) |
| SearchBox.IndexOf | webshop/public/js/product_ui/search.js:145 | the index is the first position of the query, or -1 iff it is absent |
| SearchBox.RecentSearchStore.GetRecentSearches | webshop/public/js/product_ui/search.js:121-123 | with nothing stored the list is [] |
| SearchBox.RecentSearchStore.SetRecentSearches | webshop/public/js/product_ui/search.js:138-152 | storage is left as it was when the query is listed after eviction, and otherwise holds the evicted list plus the query |
| SearchBox.RecordedSearchesShape | webshop/public/js/product_ui/search.js:138-150 | nothing is written iff the query is listed after eviction; a written list ends with the query after a suffix of the old list |
| SearchBox.RecordedSearchesBounded | webshop/public/js/product_ui/search.js:141-150 | a list of at most 4 entries stays at most 4, and a duplicate-free list stays duplicate-free |
| SearchBox.FullListReorder | webshop/public/js/product_ui/search.js:141-147 | on a full list, re-searching the oldest entry moves it to the end; re-searching another listed entry writes nothing |
| SearchBox.RecentSearchStore.OnSearchResponse | webshop/public/js/product_ui/search.js:41-54 | the query is recorded only when product or category results are non-empty |
| SearchBox.OnInput | webshop/public/js/product_ui/search.js:58-71 | empty input clears the panes, 1-2 UTF-16 code units do nothing, 3 or more start a search |
| SearchBox.GuardsAgree | webshop/public/js/product_ui/search.js:35-36 | `performSearch`'s guard passes exactly the inputs the input handler sends; such a query has at least 2 characters, and at least 3 within the Basic Multilingual Plane |
| SearchBox.Utf16Length | webshop/public/js/product_ui/search.js:36 | JavaScript's `length` counts between one and two code units per character |
| SearchBox.Utf16LengthBmp | webshop/public/js/product_ui/search.js:36 | within the Basic Multilingual Plane `length` is the character count |
| SearchBox.AstralQuerySentButRefused | webshop/public/js/product_ui/search.js:35-36 | an emoji plus one letter passes the box's 3-unit guard but has only 2 characters for the server's `len(query) < 3` guard |
| WebsiteItemUpdate.ParseFetchFromExactly | webshop/webshop/crud_events/item/update_website_item.py:66-76 | a declaration is accepted iff it is `item_code.<field>` with no further dot, and its source is that field |
| WebsiteItemUpdate.GetFetchFromMappings | webshop/webshop/crud_events/item/update_website_item.py:45-105 | the mapping applies meta declarations, then Property Setters, then `disabled`→`published` |
| WebsiteItemUpdate.AppliedUndeclared | webshop/webshop/crud_events/item/update_website_item.py:66-96 | a field no declaration reads keeps its previous mapping |
| WebsiteItemUpdate.AppliedLastDeclared | webshop/webshop/crud_events/item/update_website_item.py:66-96 | the last accepted declaration for a field decides its target |
| WebsiteItemUpdate.AppliedKeysDistinct | webshop/webshop/crud_events/item/update_website_item.py:61-96 | each source field is mapped once |
| WebsiteItemUpdate.FetchMappingsFacts | webshop/webshop/crud_events/item/update_website_item.py:61-105 | `disabled` always maps to `published`; Property Setters override meta fields; undeclared fields are unmapped |
| WebsiteItemUpdate.ChangesUnwritten | webshop/webshop/crud_events/item/update_website_item.py:25-36 | a Website Item field is in `changed` iff some mapped Item field present on the doc and changed feeds it |
| WebsiteItemUpdate.ChangesLastWrite | webshop/webshop/crud_events/item/update_website_item.py:25-36 | a field in `changed` holds the new value of the last changed mapping feeding it |
| WebsiteItemUpdate.ChangesEmpty | webshop/webshop/crud_events/item/update_website_item.py:25-42 | `changed` is empty iff no mapped field present on the doc changed |
| WebsiteItemUpdate.DisabledPublishes | webshop/webshop/crud_events/item/update_website_item.py:25-36 | a changed `disabled` sets `published` to its negation when nothing else feeds `published` |
| WebsiteItemUpdate.Execute | webshop/webshop/crud_events/item/update_website_item.py:4-42 | nothing is saved without a Website Item, without a pre-save doc, or with empty `changed`; otherwise `changed` is saved |
| KitchenItemSync.Execute | webshop/webshop/crud_events/item/sync_kitchen_item.py:12-68 | nothing is written for a non-Item, an Item without Website Item, or empty updates; a failed write is swallowed |
| KitchenItemSync.KitchenFlagWritten | webshop/webshop/crud_events/item/sync_kitchen_item.py:37-40 | the kitchen flag is written iff it changed, as "Evet" or "Hayır" |
| KitchenItemSync.SupplierWritten | webshop/webshop/crud_events/item/sync_kitchen_item.py:42-51 | the supplier is written iff the rows or the kitchen flag changed and the first row's supplier (NULL without rows) differs from the stored one |
| KitchenItemSync.UnchangedItemWritesNothing | webshop/webshop/crud_events/item/sync_kitchen_item.py:34-54 | an Item with neither change gets no updates |
| KitchenItemSync.KitchenItemShowsCheckFacet | webshop/webshop/crud_events/item/sync_kitchen_item.py:38-40 | after syncing a published item that became a kitchen item, the storefront's Check facet on `is_kitchen_item` appears |

## Left out

- Database, meta and cache access (`frappe.get_all`, `get_meta`, `count`, `get_value`, `db.exists`, `frappe.cache()`, `localStorage`): modelled as values or function parameters, not as behaviour.
- RediSearch (`sugget`, `search`), MD5, `json.dumps`/`json.loads` of whole responses and `get_url`: function parameters; a response read back from the cache is taken to equal the one written.
- Translation (`_()`, `frappe._`): not modelled; `Facets.BandCaption` and `ProductApi.FailureMessage` are the untranslated English texts.
- `ProductApi.JsonObject`: keys and values of nested dicts are not JSON-escaped, and nested values are taken as already in their JSON text.
- `flt`/`cint` coercion of loosely typed strings: arguments, prices and rankings are already-parsed numbers; prices are `real`, price bounds `int`.
- `ProductSearch.IsAlnum`: matches Python's `str.isalnum` only for the Basic Latin, Latin-1 and Latin Extended-A blocks; other letters and digits count as not alphanumeric.
- The real TTL expiry inside Redis: only the 300-second constant is recorded with each entry.
- The debounce and the asynchronous `frappe.call` of the search box, and the DOM and HTML rendering of `search.js`.
- Logging (`log_error`) on every failure path.
- The SQL text of `get_product_data` and the query engine (`ProductQuery`): the rows they return are parameters.
- Facet value order from Python sets: Link and Table MultiSelect facets are specified by their value set and the absence of duplicates, not by an order.
- `Facets.GetFieldFilters`: the "Remove None" step is not modelled separately, because no branch can produce a NULL value (NULL fields are absent from `WebItem.fields`).
- `SearchBox.RecentSearchStore.SetRecentSearches`: the JSON round trip through local storage is taken as the identity.
- `KitchenItemSync.Execute`: `has_value_changed` is an input flag of the Item, not recomputed from the saved document.
- `WebsiteItemUpdate.Execute`: `hasattr(doc, field)` is read as "the Item has the field"; Python's `1 == True` equality between ints and booleans is not modelled.
