/** The product-listing endpoint (`get_product_filter_data`) and its helpers:
    the single-pass price filter and price sort applied to the query engine's
    page, the cache key derived from the query arguments, and the read-through /
    write-through response cache. The query engine, MD5 and the child-group
    lookup are parameters. */
module ProductApi {
  import opened Basics
  import StableSort
  import Facets

  // ------------------------------------------------------ price filter/sort

  /** A product row of the engine's page; only its price (`price_list_rate`,
      0 when missing) is read here. */
  datatype Listing = Listing(itemCode: string, price: real)

  /** `SORT_OPTIONS`: sort field and whether it is descending. */
  function SortOption(sortBy: string): Option<(string, bool)>
  {
    if sortBy == "price_asc" then Some(("price_list_rate", false))
    else if sortBy == "price_desc" then Some(("price_list_rate", true))
    else if sortBy == "name_asc" then Some(("web_item_name", false))
    else if sortBy == "name_desc" then Some(("web_item_name", true))
    else if sortBy == "new" then Some(("creation", true))
    else None
  }

  predicate IsPriceSort(sortBy: string)
  {
    sortBy == "price_asc" || sortBy == "price_desc"
  }

  function Price(l: Listing): real
  {
    l.price
  }

  /** Whether a price survives the bounds. A bound of 0 is no bound (Python
      truthiness); with any bound, a price of 0 counts as unknown and is
      excluded. */
  predicate KeepsPrice(price: real, priceMin: int, priceMax: int)
  {
    && !(priceMin != 0 && price > 0.0 && price < priceMin as real)
    && !(priceMax != 0 && price > 0.0 && price > priceMax as real)
    && !((priceMin != 0 || priceMax != 0) && price == 0.0)
  }

  /** The listings whose price survives the bounds, in input order. */
  function PriceFiltered(items: seq<Listing>, priceMin: int, priceMax: int): seq<Listing>
  {
    if items == [] then []
    else
      var it := items[|items| - 1];
      PriceFiltered(items[..|items| - 1], priceMin, priceMax)
        + (if KeepsPrice(it.price, priceMin, priceMax) then [it] else [])
  }

  /** What the listing shows: the price-filtered listings, stably sorted by
      price when a price sort is requested, in engine order otherwise. */
  function ListingsShown(items: seq<Listing>, priceMin: int, priceMax: int, sortBy: string): seq<Listing>
  {
    var kept := PriceFiltered(items, priceMin, priceMax);
    if IsPriceSort(sortBy) then StableSort.SortBy(kept, Price, sortBy == "price_desc") else kept
  }

  lemma {:induction false} PriceFilteredNoBounds(items: seq<Listing>)
    ensures PriceFiltered(items, 0, 0) == items
  {
    if items != [] {
      PriceFilteredNoBounds(items[..|items| - 1]);
      assert items == items[..|items| - 1] + [items[|items| - 1]];
    }
  }

  /** `_apply_price_filter_and_sort` */
  method ApplyPriceFilterAndSort(items: seq<Listing>, priceMin: int, priceMax: int, sortBy: string)
    returns (r: seq<Listing>)
    ensures r == ListingsShown(items, priceMin, priceMax, sortBy)
    ensures priceMin == 0 && priceMax == 0 && !IsPriceSort(sortBy) ==> r == items
  {
    if items == [] {
      return [];
    }
    var priceSort := IsPriceSort(sortBy);
    if !(priceMin != 0 || priceMax != 0 || priceSort) {
      PriceFilteredNoBounds(items);
      return items;
    }
    var processed: seq<Listing> := [];
    for i := 0 to |items|
      invariant processed == PriceFiltered(items[..i], priceMin, priceMax)
    {
      var price := items[i].price;
      assert items[..i + 1][..i] == items[..i];
      if priceMin != 0 && price > 0.0 && price < priceMin as real {
        continue;
      }
      if priceMax != 0 && price > 0.0 && price > priceMax as real {
        continue;
      }
      if (priceMin != 0 || priceMax != 0) && price == 0.0 {
        continue;
      }
      processed := processed + [items[i]];
    }
    assert items[..|items|] == items;
    if priceSort {
      var (_, reverse) := SortOption(sortBy).value;
      return StableSort.SortBy(processed, Price, reverse);
    }
    return processed;
  }

  lemma {:induction false} PriceFilteredMembers(items: seq<Listing>, priceMin: int, priceMax: int)
    ensures forall x :: x in PriceFiltered(items, priceMin, priceMax) <==>
      x in items && KeepsPrice(x.price, priceMin, priceMax)
  {
    if items != [] {
      var n := |items|;
      PriceFilteredMembers(items[..n - 1], priceMin, priceMax);
      assert forall x :: x in items <==> x in items[..n - 1] || x == items[n - 1];
    }
  }

  /** Filtering distributes over concatenation: kept listings keep their
      relative input order. */
  lemma {:induction false} PriceFilteredAppend(a: seq<Listing>, b: seq<Listing>, priceMin: int, priceMax: int)
    ensures PriceFiltered(a + b, priceMin, priceMax) == PriceFiltered(a, priceMin, priceMax) + PriceFiltered(b, priceMin, priceMax)
    decreases |b|
  {
    if b == [] {
      assert a + b == a;
    } else {
      var n := |b|;
      assert (a + b)[..|a + b| - 1] == a + b[..n - 1];
      PriceFilteredAppend(a, b[..n - 1], priceMin, priceMax);
    }
  }

  /** The price bounds as the listing applies them: with any bound, no listing
      priced 0 is shown; a positive price below the minimum or above the
      maximum is not shown; every shown listing comes from the engine's page,
      and every listing that passes the bounds is shown. */
  lemma ListingsShownBounds(items: seq<Listing>, priceMin: int, priceMax: int, sortBy: string)
    ensures forall x :: x in ListingsShown(items, priceMin, priceMax, sortBy) <==>
      x in items && KeepsPrice(x.price, priceMin, priceMax)
    ensures priceMin != 0 || priceMax != 0 ==>
      forall x :: x in ListingsShown(items, priceMin, priceMax, sortBy) ==> x.price != 0.0
    ensures priceMin != 0 ==>
      forall x :: x in ListingsShown(items, priceMin, priceMax, sortBy) && x.price > 0.0 ==> x.price >= priceMin as real
    ensures priceMax != 0 ==>
      forall x :: x in ListingsShown(items, priceMin, priceMax, sortBy) && x.price > 0.0 ==> x.price <= priceMax as real
  {
    var kept := PriceFiltered(items, priceMin, priceMax);
    PriceFilteredMembers(items, priceMin, priceMax);
    if IsPriceSort(sortBy) {
      StableSort.SortBySorted(kept, Price, sortBy == "price_desc");
      var shown := StableSort.SortBy(kept, Price, sortBy == "price_desc");
      assert forall x :: x in shown <==> x in multiset(shown);
      assert forall x :: x in kept <==> x in multiset(kept);
    }
  }

  /** The order of the listing: `price_asc` ascending and `price_desc`
      descending by price, a permutation of the kept listings in which
      equally priced listings keep their engine order; any other sort keeps the
      engine order. */
  lemma ListingsShownOrder(items: seq<Listing>, priceMin: int, priceMax: int, sortBy: string)
    ensures var shown := ListingsShown(items, priceMin, priceMax, sortBy);
      var kept := PriceFiltered(items, priceMin, priceMax);
      && multiset(shown) == multiset(kept)
      && (sortBy == "price_asc" ==> forall i, j :: 0 <= i < j < |shown| ==> shown[i].price <= shown[j].price)
      && (sortBy == "price_desc" ==> forall i, j :: 0 <= i < j < |shown| ==> shown[i].price >= shown[j].price)
      && (forall p :: StableSort.WithKey(shown, Price, p) == StableSort.WithKey(kept, Price, p))
      && (!IsPriceSort(sortBy) ==> shown == kept)
  {
    var kept := PriceFiltered(items, priceMin, priceMax);
    if IsPriceSort(sortBy) {
      var desc := sortBy == "price_desc";
      StableSort.SortBySorted(kept, Price, desc);
      forall p ensures StableSort.WithKey(StableSort.SortBy(kept, Price, desc), Price, p) == StableSort.WithKey(kept, Price, p) {
        StableSort.SortByStable(kept, Price, desc, p);
      }
    }
  }

  // ------------------------------------------------------------- cache key

  /** A value of the query arguments. `Dict` holds a nested object whose
      values are already in their JSON text. */
  datatype ArgValue = Str(s: string) | Int(i: int) | Bool(b: bool) | Dict(entries: map<string, string>) | Null

  /** The query arguments as a Python dict: key/value pairs in insertion order. */
  type QueryArgs = seq<(string, ArgValue)>

  /** The dict's content; a later pair for the same key wins. */
  function ToMap(args: QueryArgs): map<string, ArgValue>
  {
    if args == [] then map[]
    else ToMap(args[..|args| - 1])[args[|args| - 1].0 := args[|args| - 1].1]
  }

  /** `json.dumps(d, sort_keys=True)` for a flat object. */
  function JsonObject(d: map<string, string>): string
  {
    "{" + Join(", ", JsonMembers(d, SortedStrings(d.Keys))) + "}"
  }

  function JsonMembers(d: map<string, string>, keys: seq<string>): seq<string>
    requires forall k :: k in keys ==> k in d
  {
    if keys == [] then []
    else
      var k := keys[|keys| - 1];
      JsonMembers(d, keys[..|keys| - 1]) + ["\"" + k + "\": " + d[k]]
  }

  /** The text `f"{k}:{val}"` puts for a value. */
  function Render(v: ArgValue): string
  {
    match v
    case Str(s) => s
    case Int(i) => IntToString(i)
    case Bool(b) => if b then "True" else "False"
    case Dict(d) => JsonObject(d)
    case Null => "None"
  }

  /** The `k:v` parts for the given keys, in the given order. */
  function KeyParts(m: map<string, ArgValue>, keys: seq<string>): seq<string>
    requires forall k :: k in keys ==> k in m
  {
    if keys == [] then []
    else
      var k := keys[|keys| - 1];
      KeyParts(m, keys[..|keys| - 1]) + [k + ":" + Render(m[k])]
  }

  /** The `|`-joined `k:v` parts in sorted key order. */
  function CacheString(m: map<string, ArgValue>): string
  {
    Join("|", KeyParts(m, SortedStrings(m.Keys)))
  }

  const CacheKeyPrefix: string := "product_filter:"

  function CacheKey(md5: string -> string, m: map<string, ArgValue>): string
  {
    CacheKeyPrefix + md5(CacheString(m))
  }

  /** `_generate_cache_key`, with MD5 given as `md5`. */
  method GenerateCacheKey(args: QueryArgs, md5: string -> string) returns (key: string)
    ensures key == CacheKey(md5, ToMap(args))
  {
    var m := ToMap(args);
    var keys := SortedStrings(m.Keys);
    var keyParts: seq<string> := [];
    for i := 0 to |keys|
      invariant forall k :: k in keys[..i] ==> k in m
      invariant keyParts == KeyParts(m, keys[..i])
    {
      var k := keys[i];
      var prefix := keys[..i + 1];
      assert prefix[..i] == keys[..i] && prefix[i] == k;
      assert k in m;
      var part := k + ":" + Render(m[k]);
      assert KeyParts(m, prefix) == KeyParts(m, keys[..i]) + [part];
      keyParts := keyParts + [part];
    }
    assert keys[..|keys|] == keys;
    var cacheString := Join("|", keyParts);
    key := CacheKeyPrefix + md5(cacheString);
  }

  lemma {:induction false} ToMapContent(args: QueryArgs)
    requires KeysDistinct(args)
    ensures forall k :: k in ToMap(args) <==> exists i :: 0 <= i < |args| && args[i].0 == k
    ensures forall i :: 0 <= i < |args| ==> args[i].0 in ToMap(args) && ToMap(args)[args[i].0] == args[i].1
  {
    forall k | k in ToMap(args) ensures exists i :: 0 <= i < |args| && args[i].0 == k {
      ToMapKey(args, k);
    }
    forall i | 0 <= i < |args| ensures args[i].0 in ToMap(args) && ToMap(args)[args[i].0] == args[i].1 {
      ToMapEntry(args, i);
    }
  }

  /** Every key of the dict comes from some pair. */
  lemma {:induction false} ToMapKey(args: QueryArgs, k: string)
    requires k in ToMap(args)
    ensures exists i :: 0 <= i < |args| && args[i].0 == k
  {
    var n := |args|;
    if args[n - 1].0 != k {
      var prefix := args[..n - 1];
      ToMapKey(prefix, k);
      var i :| 0 <= i < n - 1 && prefix[i].0 == k;
      assert args[i].0 == k;
    }
  }

  /** With distinct keys, every pair is an entry of the dict. */
  lemma {:induction false} ToMapEntry(args: QueryArgs, i: int)
    requires KeysDistinct(args)
    requires 0 <= i < |args|
    ensures args[i].0 in ToMap(args) && ToMap(args)[args[i].0] == args[i].1
  {
    var n := |args|;
    if i < n - 1 {
      var prefix := args[..n - 1];
      assert KeysDistinct(prefix);
      assert prefix[i] == args[i];
      ToMapEntry(prefix, i);
      assert args[i].0 != args[n - 1].0;
    }
  }

  /** Two argument dicts with the same content, whatever their insertion
      order, get the same cache key. */
  lemma CacheKeyOrderIndependent(a: QueryArgs, b: QueryArgs, md5: string -> string)
    requires KeysDistinct(a) && KeysDistinct(b)
    requires multiset(a) == multiset(b)
    ensures CacheKey(md5, ToMap(a)) == CacheKey(md5, ToMap(b))
  {
    forall p ensures p in a <==> p in b {
      assert p in a <==> p in multiset(a);
      assert p in b <==> p in multiset(b);
    }
    SamePairsSameMap(a, b);
  }

  /** Duplicate-free argument lists with the same pairs make the same dict. */
  lemma SamePairsSameMap(a: QueryArgs, b: QueryArgs)
    requires KeysDistinct(a) && KeysDistinct(b)
    requires forall p :: p in a <==> p in b
    ensures ToMap(a) == ToMap(b)
  {
    forall k | k in ToMap(a) ensures k in ToMap(b) && ToMap(b)[k] == ToMap(a)[k] {
      SamePairsKey(a, b, k);
    }
    forall k | k in ToMap(b) ensures k in ToMap(a) {
      SamePairsKey(b, a, k);
    }
  }

  lemma SamePairsKey(a: QueryArgs, b: QueryArgs, k: string)
    requires KeysDistinct(a) && KeysDistinct(b)
    requires forall p :: p in a <==> p in b
    requires k in ToMap(a)
    ensures k in ToMap(b) && ToMap(b)[k] == ToMap(a)[k]
  {
    ToMapContent(a);
    ToMapContent(b);
    var i :| 0 <= i < |a| && a[i].0 == k;
    assert a[i] in b;
    var j :| 0 <= j < |b| && b[j] == a[i];
  }

  // ------------------------------------------------- cached listing endpoint

  /** What the endpoint asks of the query engine. */
  datatype EngineRequest = EngineRequest(
    orderBy: Option<string>,     // set on the engine before the query, if at all
    pageLength: Option<int>,
    start: int,
    itemGroup: string,
    search: ArgValue,
    fieldFilters: ArgValue,
    attributeFilters: ArgValue)

  /** The engine's answer, or the exception it raised. */
  datatype EngineOutcome =
    | Raised
    | Returned(items: seq<Listing>, itemsCount: int, discounts: Option<(real, real)>, settings: string)

  /** The endpoint's JSON response. */
  datatype Response =
    | Failure(exc: string)
    | Page(items: seq<Listing>, discountFilters: Option<seq<Facets.DiscountBand>>, settings: string,
           subCategories: seq<string>, itemsCount: int)

  datatype CacheEntry = CacheEntry(response: Response, expiresInSec: int)

  const CacheTtl: int := 300
  const FailureMessage: string := "Unable to load products. Please try again."

  function Get(m: map<string, ArgValue>, k: string): ArgValue
  {
    if k in m then m[k] else Null
  }

  /** A text argument; "" when absent or not text. */
  function TextArg(m: map<string, ArgValue>, k: string): string
  {
    if Get(m, k).Str? then Get(m, k).s else ""
  }

  /** An integer argument; 0 when absent or not an integer. */
  function IntArg(m: map<string, ArgValue>, k: string): int
  {
    if Get(m, k).Int? then Get(m, k).i else 0
  }

  /** Python truthiness of an argument. */
  predicate Truthy(v: ArgValue)
  {
    match v
    case Str(s) => s != ""
    case Int(i) => i != 0
    case Bool(b) => b
    case Dict(d) => d != map[]
    case Null => false
  }

  /** The engine's `order_by` for a sort option: none for no sort or a price
      sort (those are applied after the query), "ranking desc" for an unknown
      option. */
  function OrderBy(sortBy: string): Option<string>
  {
    if sortBy == "" || IsPriceSort(sortBy) then None
    else
      var option := if SortOption(sortBy).Some? then SortOption(sortBy).value else ("ranking", true);
      Some(option.0 + " " + (if option.1 then "desc" else "asc"))
  }

  function BuildRequest(m: map<string, ArgValue>): EngineRequest
  {
    EngineRequest(
      OrderBy(TextArg(m, "sort_by")),
      if IntArg(m, "items_per_page") != 0 then Some(IntArg(m, "items_per_page")) else None,
      if Truthy(Get(m, "from_filters")) then 0 else IntArg(m, "start"),
      TextArg(m, "item_group"),
      Get(m, "search"),
      if "field_filters" in m then m["field_filters"] else Dict(map[]),
      if "attribute_filters" in m then m["attribute_filters"] else Dict(map[]))
  }

  /** The response assembled from the engine's outcome. */
  ghost predicate Assembled(response: Response, m: map<string, ArgValue>, outcome: EngineOutcome,
                            childGroups: string -> seq<string>)
  {
    var priceMin, priceMax, sortBy := IntArg(m, "price_min"), IntArg(m, "price_max"), TextArg(m, "sort_by");
    var itemGroup := TextArg(m, "item_group");
    match outcome
    case Raised => response == Failure(FailureMessage)
    case Returned(items, count, discounts, settings) =>
      && response.Page?
      && response.items == ListingsShown(items, priceMin, priceMax, sortBy)
      && response.itemsCount == (if priceMin != 0 || priceMax != 0 then |response.items| else count)
      && (response.discountFilters.Some? <==> discounts.Some?)
      && (discounts.Some? ==> Facets.Banding(response.discountFilters.value, discounts.value.0, discounts.value.1))
      && response.settings == settings
      && response.subCategories == (if itemGroup != "" then childGroups(itemGroup) else [])
  }

  /** The shared response cache (`frappe.cache()`), keyed by cache key. */
  class ResponseCache {
    var entries: map<string, CacheEntry>

    constructor ()
      ensures entries == map[]
    {
      entries := map[];
    }
  }

  /** The engine set-up of `get_product_filter_data`: the sort order, page
      length and query parameters read from the arguments. */
  method ReadRequest(m: map<string, ArgValue>) returns (request: EngineRequest)
    ensures request == BuildRequest(m)
  {
    var sortBy := TextArg(m, "sort_by");
    var orderBy: Option<string> := None;
    if sortBy != "" && !IsPriceSort(sortBy) {
      var (sortField, reverse) := if SortOption(sortBy).Some? then SortOption(sortBy).value else ("ranking", true);
      orderBy := Some(sortField + " " + (if reverse then "desc" else "asc"));
    }
    var pageLength: Option<int> := None;
    var itemsPerPage := IntArg(m, "items_per_page");
    if itemsPerPage != 0 {
      pageLength := Some(itemsPerPage);
    }
    var start := if Truthy(Get(m, "from_filters")) then 0 else IntArg(m, "start");
    request := EngineRequest(orderBy, pageLength, start, TextArg(m, "item_group"), Get(m, "search"),
                             if "field_filters" in m then m["field_filters"] else Dict(map[]),
                             if "attribute_filters" in m then m["attribute_filters"] else Dict(map[]));
  }

  /** The response built from what the engine returned: the price-filtered
      and sorted items, the item count, the discount bands and the
      sub-categories. */
  method AssemblePage(m: map<string, ArgValue>, outcome: EngineOutcome, subCategories: seq<string>,
                      ghost childGroups: string -> seq<string>)
    returns (response: Response)
    requires outcome.Returned?
    requires subCategories == (if TextArg(m, "item_group") != "" then childGroups(TextArg(m, "item_group")) else [])
    ensures Assembled(response, m, outcome, childGroups)
  {
    var priceMin, priceMax := IntArg(m, "price_min"), IntArg(m, "price_max");
    var items := ApplyPriceFilterAndSort(outcome.items, priceMin, priceMax, TextArg(m, "sort_by"));
    var itemsCount := if priceMin != 0 || priceMax != 0 then |items| else outcome.itemsCount;

    var discountFilters: Option<seq<Facets.DiscountBand>> := None;
    if outcome.discounts.Some? {
      var bands := Facets.GetDiscountFilters(outcome.discounts.value.0, outcome.discounts.value.1);
      discountFilters := Some(bands);
    }

    response := Page(items, discountFilters, outcome.settings, subCategories, itemsCount);
  }

  /** The uncached part of `get_product_filter_data`: reads the arguments,
      queries the engine once with the request they describe and assembles the
      response from what it returns (or the failure response when it raises). */
  method QueryAndAssemble(m: map<string, ArgValue>, engine: EngineRequest -> EngineOutcome,
                          childGroups: string -> seq<string>)
    returns (response: Response, request: EngineRequest)
    ensures request == BuildRequest(m)
    ensures Assembled(response, m, engine(request), childGroups)
  {
    var itemGroup := TextArg(m, "item_group");
    var subCategories: seq<string> := [];
    if itemGroup != "" {
      subCategories := childGroups(itemGroup);
    }

    request := ReadRequest(m);
    var outcome := engine(request);
    if outcome.Raised? {
      return Failure(FailureMessage), request;
    }
    response := AssemblePage(m, outcome, subCategories, childGroups);
  }

  /** `get_product_filter_data`. Outside developer mode a cached response is
      returned without querying the engine; otherwise the engine is queried
      (`request` is what it is asked), the response assembled, and, outside
      developer mode and unless the engine raised, written to the cache with
      a 300-second expiry. */
  method GetProductFilterData(cache: ResponseCache, args: QueryArgs, developerMode: bool,
                              md5: string -> string, engine: EngineRequest -> EngineOutcome,
                              childGroups: string -> seq<string>)
    returns (response: Response, request: Option<EngineRequest>)
    modifies cache
    ensures var key := CacheKey(md5, ToMap(args));
      key in old(cache.entries) && !developerMode ==>
        && response == old(cache.entries)[key].response
        && request.None?
        && cache.entries == old(cache.entries)
    ensures var key := CacheKey(md5, ToMap(args));
      !(key in old(cache.entries) && !developerMode) ==>
        && request == Some(BuildRequest(ToMap(args)))
        && Assembled(response, ToMap(args), engine(request.value), childGroups)
        && cache.entries == (if developerMode || response.Failure? then old(cache.entries)
                             else old(cache.entries)[key := CacheEntry(response, CacheTtl)])
  {
    var cacheKey := GenerateCacheKey(args, md5);
    if cacheKey in cache.entries && !developerMode {
      return cache.entries[cacheKey].response, None;
    }
    var req;
    response, req := QueryAndAssemble(ToMap(args), engine, childGroups);
    request := Some(req);
    if !developerMode && response.Page? {
      cache.entries := cache.entries[cacheKey := CacheEntry(response, CacheTtl)];
    }
  }

  /** The engine's `order_by` for each sort option: the `SORT_OPTIONS` field
      and direction for a known non-price option, "ranking desc" for an unknown
      one, and nothing for a price sort or no sort. */
  lemma OrderByOptions(sortBy: string)
    ensures sortBy == "name_asc" ==> OrderBy(sortBy) == Some("web_item_name asc")
    ensures sortBy == "name_desc" ==> OrderBy(sortBy) == Some("web_item_name desc")
    ensures sortBy == "new" ==> OrderBy(sortBy) == Some("creation desc")
    ensures sortBy != "" && SortOption(sortBy).None? ==> OrderBy(sortBy) == Some("ranking desc")
    ensures sortBy == "" || IsPriceSort(sortBy) ==> OrderBy(sortBy).None?
  {
    assert "web_item_name" + " " + "asc" == "web_item_name asc";
    assert "web_item_name" + " " + "desc" == "web_item_name desc";
    assert "creation" + " " + "desc" == "creation desc";
    assert "ranking" + " " + "desc" == "ranking desc";
  }
}
