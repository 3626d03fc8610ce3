/** The search page's backend (`templates/pages/product_search.py`): query
    clean-up, the full-text product search with its SQL fallback, thumbnail
    normalisation of result rows, category suggestions and the combined
    `search` endpoint. RediSearch, the SQL scan and `get_url` are parameters;
    a RediSearch call that raises is an answer of `None`. */
module ProductSearch {
  import opened Basics
  import StableSort

  // ---------------------------------------------------------- query clean-up

  /** `str.isspace()`: the characters Python classes as whitespace. */
  predicate IsSpace(c: char)
  {
    || ('\U{0009}' <= c <= '\U{000D}') || ('\U{001C}' <= c <= '\U{001F}') || c == ' '
    || c == '\U{0085}' || c == '\U{00A0}' || c == '\U{1680}' || ('\U{2000}' <= c <= '\U{200A}')
    || c == '\U{2028}' || c == '\U{2029}' || c == '\U{202F}' || c == '\U{205F}' || c == '\U{3000}'
  }

  /** `str.isalnum()` for the Basic Latin, Latin-1 and Latin Extended-A blocks
      (the Turkish alphabet included); other characters count as not
      alphanumeric. */
  predicate IsAlnum(c: char)
  {
    || ('0' <= c <= '9') || ('A' <= c <= 'Z') || ('a' <= c <= 'z')
    || c == '\U{00AA}' || c == '\U{00B2}' || c == '\U{00B3}' || c == '\U{00B5}' || c == '\U{00B9}' || c == '\U{00BA}'
    || ('\U{00BC}' <= c <= '\U{00BE}')
    || ('\U{00C0}' <= c <= '\U{00D6}') || ('\U{00D8}' <= c <= '\U{00F6}') || ('\U{00F8}' <= c <= '\U{017F}')
  }

  predicate Kept(c: char)
  {
    IsAlnum(c) || IsSpace(c)
  }

  /** `clean_up_query`: the alphanumeric and whitespace characters of `q`. */
  function CleanUpQuery(q: string): (r: string)
    ensures |r| <= |q|
    ensures forall i :: 0 <= i < |r| ==> Kept(r[i])
  {
    if q == [] then []
    else
      var c := q[|q| - 1];
      CleanUpQuery(q[..|q| - 1]) + (if Kept(c) then [c] else [])
  }

  /** Clean-up works character by character: it distributes over
      concatenation, so the kept characters stay in their order. */
  lemma {:induction false} CleanUpQueryAppend(a: string, b: string)
    ensures CleanUpQuery(a + b) == CleanUpQuery(a) + CleanUpQuery(b)
    decreases |b|
  {
    if b == [] {
      assert a + b == a;
    } else {
      var n := |b|;
      assert (a + b)[..|a + b| - 1] == a + b[..n - 1];
      CleanUpQueryAppend(a, b[..n - 1]);
    }
  }

  /** A single character is kept exactly when it is alphanumeric or space. */
  lemma CleanUpQueryChar(c: char)
    ensures CleanUpQuery([c]) == (if Kept(c) then [c] else [])
  {
    assert [c][..0] == [];
  }

  /** A string of kept characters is left as it is. */
  lemma {:induction false} CleanUpQueryKeepsClean(q: string)
    requires forall i :: 0 <= i < |q| ==> Kept(q[i])
    ensures CleanUpQuery(q) == q
  {
    if q != [] {
      CleanUpQueryKeepsClean(q[..|q| - 1]);
      assert q == q[..|q| - 1] + [q[|q| - 1]];
    }
  }

  /** Cleaning twice is cleaning once. */
  lemma CleanUpQueryIdempotent(q: string)
    ensures CleanUpQuery(CleanUpQuery(q)) == CleanUpQuery(q)
  {
    CleanUpQueryKeepsClean(CleanUpQuery(q));
  }

  /** Every character of `q` that is alphanumeric or space is in the result,
      and nothing else is. */
  lemma {:induction false} CleanUpQueryMembers(q: string)
    ensures forall c :: c in CleanUpQuery(q) <==> c in q && Kept(c)
  {
    if q != [] {
      var n := |q|;
      CleanUpQueryMembers(q[..n - 1]);
      assert forall c :: c in q <==> c in q[..n - 1] || c == q[n - 1];
    }
  }

  // ------------------------------------------------------- query expression

  /** The number of occurrences of `c` in `s`. */
  function Count(c: char, s: string): nat
  {
    if s == [] then 0 else Count(c, s[..|s| - 1]) + (if s[|s| - 1] == c then 1 else 0)
  }

  lemma {:induction false} CountAppend(c: char, a: string, b: string)
    ensures Count(c, a + b) == Count(c, a) + Count(c, b)
    decreases |b|
  {
    if b == [] {
      assert a + b == a;
    } else {
      var n := |b|;
      assert (a + b)[..|a + b| - 1] == a + b[..n - 1];
      CountAppend(c, a, b[..n - 1]);
    }
  }

  lemma {:induction false} CountAbsent(c: char, s: string)
    requires forall i :: 0 <= i < |s| ==> s[i] != c
    ensures Count(c, s) == 0
  {
    if s != [] {
      CountAbsent(c, s[..|s| - 1]);
    }
  }

  /** The alternative a suggestion adds to the query expression. */
  function Clause(suggestion: string): string
  {
    "|('" + CleanUpQuery(suggestion) + "')"
  }

  /** The full-text query: the cleaned query, then one alternative per
      suggestion in suggestion order. */
  function QueryString(cleaned: string, suggestions: seq<string>): string
  {
    if suggestions == [] then cleaned
    else QueryString(cleaned, suggestions[..|suggestions| - 1]) + Clause(suggestions[|suggestions| - 1])
  }

  /** The loop building the query expression. */
  method BuildQueryString(cleaned: string, suggestions: seq<string>) returns (queryString: string)
    ensures queryString == QueryString(cleaned, suggestions)
  {
    queryString := cleaned;
    for i := 0 to |suggestions|
      invariant queryString == QueryString(cleaned, suggestions[..i])
    {
      assert suggestions[..i + 1][..i] == suggestions[..i];
      queryString := queryString + "|('" + CleanUpQuery(suggestions[i]) + "')";
    }
    assert suggestions[..|suggestions|] == suggestions;
  }

  lemma ClauseDelimiters(suggestion: string)
    ensures Count('|', Clause(suggestion)) == 1
    ensures Count('\'', Clause(suggestion)) == 2
  {
    var cleaned := CleanUpQuery(suggestion);
    CountAbsent('|', cleaned);
    CountAbsent('\'', cleaned);
    CountAppend('|', "|('", cleaned);
    CountAppend('|', "|('" + cleaned, "')");
    CountAppend('\'', "|('", cleaned);
    CountAppend('\'', "|('" + cleaned, "')");
    assert "|('"[..2] == "|(" && "|("[..1] == "|" && "|"[..0] == "";
    assert "')"[..1] == "'" && "'"[..0] == "";
  }

  /** Suggestions cannot break out of their quoted alternative: the query
      expression has exactly one `|` and two quotes per suggestion, since
      clean-up removes both characters from the query and the suggestions. */
  lemma {:induction false} QueryStringDelimiters(query: string, suggestions: seq<string>)
    ensures Count('|', QueryString(CleanUpQuery(query), suggestions)) == |suggestions|
    ensures Count('\'', QueryString(CleanUpQuery(query), suggestions)) == 2 * |suggestions|
  {
    if suggestions == [] {
      CountAbsent('|', CleanUpQuery(query));
      CountAbsent('\'', CleanUpQuery(query));
    } else {
      var n := |suggestions|;
      QueryStringDelimiters(query, suggestions[..n - 1]);
      ClauseDelimiters(suggestions[n - 1]);
      CountAppend('|', QueryString(CleanUpQuery(query), suggestions[..n - 1]), Clause(suggestions[n - 1]));
      CountAppend('\'', QueryString(CleanUpQuery(query), suggestions[..n - 1]), Clause(suggestions[n - 1]));
    }
  }

  // ---------------------------------------------------- result rows

  /** A result row; an unset thumbnail or website image is "". */
  datatype Doc = Doc(itemCode: string, webItemName: string, route: string,
                     thumbnail: string, websiteImage: string, ranking: int)

  /** The thumbnail fallback and URL rewrite applied to every result row
      (`convert_to_dict` and the loop in `get_product_data`). */
  function Normalize(d: Doc, getUrl: string -> string): (r: Doc)
    ensures r == d.(thumbnail := r.thumbnail)
  {
    var t := if d.thumbnail == "" && d.websiteImage != "" then d.websiteImage else d.thumbnail;
    d.(thumbnail := if t != "" && !StartsWith(t, "http") then getUrl(t) else t)
  }

  /** What normalisation does to the thumbnail: a set thumbnail is kept if it
      is an http URL and rewritten through `get_url` otherwise; an unset one
      takes the website image under the same rule; with neither it stays
      unset. */
  lemma NormalizeCases(d: Doc, getUrl: string -> string)
    ensures var r := Normalize(d, getUrl);
      && (d.thumbnail != "" && StartsWith(d.thumbnail, "http") ==> r.thumbnail == d.thumbnail)
      && (d.thumbnail != "" && !StartsWith(d.thumbnail, "http") ==> r.thumbnail == getUrl(d.thumbnail))
      && (d.thumbnail == "" && StartsWith(d.websiteImage, "http") ==> r.thumbnail == d.websiteImage)
      && (d.thumbnail == "" && d.websiteImage != "" && !StartsWith(d.websiteImage, "http") ==>
            r.thumbnail == getUrl(d.websiteImage))
      && (d.thumbnail == "" && d.websiteImage == "" ==> r.thumbnail == "")
  {
  }

  /** When `get_url` always yields an http URL, normalising a row twice is
      normalising it once. */
  lemma NormalizeIdempotent(d: Doc, getUrl: string -> string)
    requires forall u :: StartsWith(getUrl(u), "http")
    ensures Normalize(Normalize(d, getUrl), getUrl) == Normalize(d, getUrl)
  {
  }

  /** The thumbnail loop of `get_product_data`, rewriting the rows in place. */
  method NormalizeThumbnails(rows: array<Doc>, getUrl: string -> string)
    modifies rows
    ensures forall i :: 0 <= i < rows.Length ==> rows[i] == Normalize(old(rows[i]), getUrl)
  {
    for i := 0 to rows.Length
      invariant forall j :: 0 <= j < i ==> rows[j] == Normalize(old(rows[j]), getUrl)
      invariant forall j :: i <= j < rows.Length ==> rows[j] == old(rows[j])
    {
      var item := rows[i];
      if item.thumbnail == "" && item.websiteImage != "" {
        item := item.(thumbnail := item.websiteImage);
      }
      if item.thumbnail != "" {
        var thumbnail := item.thumbnail;
        if thumbnail != "" && !StartsWith(thumbnail, "http") {
          item := item.(thumbnail := getUrl(thumbnail));
        }
      }
      rows[i] := item;
    }
  }

  /** What the SQL scan is asked: the `LIKE` pattern (none without a search
      term), the offset and the page size. */
  datatype ScanRequest = ScanRequest(pattern: Option<string>, start: int, limit: int)

  /** `get_product_data`: the published rows the scan returns, each normalised. */
  method GetProductData(search: string, start: int, limit: int,
                        sqlScan: ScanRequest -> seq<Doc>, getUrl: string -> string)
    returns (results: seq<Doc>)
    ensures var raw := sqlScan(ScanRequest(if search != "" then Some("%" + search + "%") else None, start, limit));
      |results| == |raw| && forall i :: 0 <= i < |raw| ==> results[i] == Normalize(raw[i], getUrl)
  {
    var pattern: Option<string> := None;
    if search != "" {
      pattern := Some("%" + search + "%");
    }
    var raw := sqlScan(ScanRequest(pattern, start, limit));
    var rows := new Doc[|raw|](i requires 0 <= i < |raw| => raw[i]);
    NormalizeThumbnails(rows, getUrl);
    results := rows[..];
  }

  // ------------------------------------------------------- product search

  function RankKey(d: Doc): real
  {
    d.ranking as real
  }

  /** The rows of a full-text answer as the search returns them: normalised,
      then stably sorted by ranking, highest first. */
  function Ranked(docs: seq<Doc>, getUrl: string -> string): seq<Doc>
  {
    StableSort.SortBy(seq(|docs|, i requires 0 <= i < |docs| => Normalize(docs[i], getUrl)), RankKey, true)
  }

  /** Ranked rows are the normalised rows, highest ranking first, and rows of
      equal ranking keep the order RediSearch gave them. */
  lemma RankedOrder(docs: seq<Doc>, getUrl: string -> string)
    ensures var normalized := seq(|docs|, i requires 0 <= i < |docs| => Normalize(docs[i], getUrl));
      var ranked := Ranked(docs, getUrl);
      && multiset(ranked) == multiset(normalized)
      && (forall i, j :: 0 <= i < j < |ranked| ==> ranked[i].ranking >= ranked[j].ranking)
      && (forall k :: StableSort.WithKey(ranked, RankKey, k) == StableSort.WithKey(normalized, RankKey, k))
  {
    var normalized := seq(|docs|, i requires 0 <= i < |docs| => Normalize(docs[i], getUrl));
    StableSort.SortBySorted(normalized, RankKey, true);
    forall k ensures StableSort.WithKey(Ranked(docs, getUrl), RankKey, k) == StableSort.WithKey(normalized, RankKey, k) {
      StableSort.SortByStable(normalized, RankKey, true, k);
    }
  }

  /** What the autocomplete dictionary is asked for product names. */
  datatype SuggestRequest = SuggestRequest(prefix: string, num: int, fuzzy: bool)

  datatype SearchResult = SearchResult(fromRedisearch: bool, results: seq<Doc>)

  /** The full-text path: suggestions for the cleaned query, the query
      expression, the search and the ranking; `None` when a call raises. */
  function FullText(query: string, limit: int, fuzzySearch: bool,
                    sugget: SuggestRequest -> Option<seq<string>>, ftSearch: string -> Option<seq<Doc>>,
                    getUrl: string -> string): Option<seq<Doc>>
  {
    var cleaned := CleanUpQuery(query);
    var suggestions := sugget(SuggestRequest(cleaned, limit, fuzzySearch && |query| > 3));
    if suggestions.None? then None
    else
      var docs := ftSearch(QueryString(cleaned, suggestions.value));
      if docs.None? then None else Some(Ranked(docs.value, getUrl))
  }

  /** `product_search`. `suggestRequest` is what the autocomplete dictionary
      was asked, if anything. */
  method ProductSearch(query: string, limit: int, fuzzySearch: bool, redisearchEnabled: bool,
                       sugget: SuggestRequest -> Option<seq<string>>, ftSearch: string -> Option<seq<Doc>>,
                       sqlScan: ScanRequest -> seq<Doc>, getUrl: string -> string)
    returns (result: SearchResult, suggestRequest: Option<SuggestRequest>)
    ensures |query| < 3 ==> result == SearchResult(true, []) && suggestRequest.None?
    ensures |query| >= 3 && !redisearchEnabled ==> suggestRequest.None?
    ensures |query| >= 3 && redisearchEnabled ==>
      suggestRequest == Some(SuggestRequest(CleanUpQuery(query), limit, fuzzySearch && |query| > 3))
    ensures |query| >= 3 ==>
      var fullText := FullText(query, limit, fuzzySearch, sugget, ftSearch, getUrl);
      if redisearchEnabled && fullText.Some? then result == SearchResult(true, fullText.value)
      else
        && !result.fromRedisearch
        && |result.results| == |sqlScan(ScanRequest(Some("%" + query + "%"), 0, limit))|
        && forall i :: 0 <= i < |result.results| ==>
             result.results[i] == Normalize(sqlScan(ScanRequest(Some("%" + query + "%"), 0, limit))[i], getUrl)
  {
    result := SearchResult(true, []);
    suggestRequest := None;
    if query == "" || |query| < 3 {
      return;
    }
    if !redisearchEnabled {
      var rows := GetProductData(query, 0, limit, sqlScan, getUrl);
      return SearchResult(false, rows), None;
    }
    var cleaned := CleanUpQuery(query);
    var request := SuggestRequest(cleaned, limit, fuzzySearch && |query| > 3);
    suggestRequest := Some(request);
    var suggestions := sugget(request);
    var docs: Option<seq<Doc>> := None;
    if suggestions.Some? {
      var queryString := BuildQueryString(cleaned, suggestions.value);
      docs := ftSearch(queryString);
    }
    if docs.None? {
      var rows := GetProductData(query, 0, limit, sqlScan, getUrl);
      return SearchResult(false, rows), suggestRequest;
    }
    var converted := seq(|docs.value|, i requires 0 <= i < |docs.value| => Normalize(docs.value[i], getUrl));
    result := SearchResult(true, StableSort.SortBy(converted, RankKey, true));
  }

  // -------------------------------------------------- category suggestions

  /** An Item Group suggestion (`name`, `route`). */
  datatype Category = Category(name: string, route: string)

  /** What the category dictionary is asked. */
  datatype CategoryRequest = CategoryRequest(prefix: string, num: int)

  /** The payloads decoded in order; `None` as soon as one fails to decode. */
  function DecodeAll(payloads: seq<string>, decode: string -> Option<Category>): (r: Option<seq<Category>>)
    ensures r.Some? ==> |r.value| == |payloads| && forall i :: 0 <= i < |payloads| ==> decode(payloads[i]) == Some(r.value[i])
    ensures r.None? ==> exists i :: 0 <= i < |payloads| && decode(payloads[i]).None?
  {
    if payloads == [] then Some([])
    else
      var n := |payloads|;
      var front := DecodeAll(payloads[..n - 1], decode);
      var last := decode(payloads[n - 1]);
      if front.None? then
        var i :| 0 <= i < n - 1 && decode(payloads[..n - 1][i]).None?;
        assert payloads[..n - 1][i] == payloads[i];
        None
      else if last.None? then None
      else Some(front.value + [last.value])
  }

  /** `get_category_suggestions`. The Item Group scan and the dictionary
      lookup answer `None` when they raise. */
  method GetCategorySuggestions(query: string, limit: int, redisearchEnabled: bool,
                                groupScan: CategoryRequest -> Option<seq<Category>>,
                                suggestPayloads: CategoryRequest -> Option<seq<string>>,
                                decode: string -> Option<Category>)
    returns (results: seq<Category>)
    ensures |query| < 3 ==> results == []
    ensures |query| >= 3 && !redisearchEnabled ==>
      var groups := groupScan(CategoryRequest("%" + query + "%", limit));
      results == if groups.Some? then groups.value else []
    ensures |query| >= 3 && redisearchEnabled ==>
      var payloads := suggestPayloads(CategoryRequest(query, limit));
      if payloads.None? then results == []
      else
        var decoded := DecodeAll(payloads.value, decode);
        results == if decoded.Some? then decoded.value else []
  {
    if query == "" || |query| < 3 {
      return [];
    }
    if !redisearchEnabled {
      var categories := groupScan(CategoryRequest("%" + query + "%", limit));
      return if categories.Some? then categories.value else [];
    }
    var suggestions := suggestPayloads(CategoryRequest(query, limit));
    if suggestions.None? {
      return [];
    }
    var decoded := DecodeAll(suggestions.value, decode);
    results := if decoded.Some? then decoded.value else [];
  }

  // ------------------------------------------------------------- search

  datatype SearchResponse = SearchResponse(productResults: seq<Doc>, categoryResults: seq<Category>)

  /** `search`: the product search with 8 results and fuzzy matching, and the
      category suggestions with 5; each list is [] when its search found
      nothing. */
  method Search(query: string, redisearchEnabled: bool,
                sugget: SuggestRequest -> Option<seq<string>>, ftSearch: string -> Option<seq<Doc>>,
                sqlScan: ScanRequest -> seq<Doc>, getUrl: string -> string,
                groupScan: CategoryRequest -> Option<seq<Category>>,
                suggestPayloads: CategoryRequest -> Option<seq<string>>,
                decode: string -> Option<Category>)
    returns (response: SearchResponse)
    ensures |query| < 3 ==> response == SearchResponse([], [])
    ensures |query| >= 3 ==>
      var fullText := FullText(query, 8, true, sugget, ftSearch, getUrl);
      var scan := sqlScan(ScanRequest(Some("%" + query + "%"), 0, 8));
      if redisearchEnabled && fullText.Some? then response.productResults == fullText.value
      else
        && |response.productResults| == |scan|
        && forall i :: 0 <= i < |scan| ==> response.productResults[i] == Normalize(scan[i], getUrl)
    ensures |query| >= 3 && !redisearchEnabled ==>
      var groups := groupScan(CategoryRequest("%" + query + "%", 5));
      response.categoryResults == if groups.Some? then groups.value else []
    ensures |query| >= 3 && redisearchEnabled ==>
      var payloads := suggestPayloads(CategoryRequest(query, 5));
      if payloads.None? then response.categoryResults == []
      else
        var decoded := DecodeAll(payloads.value, decode);
        response.categoryResults == if decoded.Some? then decoded.value else []
  {
    var products, _ := ProductSearch(query, 8, true, redisearchEnabled, sugget, ftSearch, sqlScan, getUrl);
    var categories := GetCategorySuggestions(query, 5, redisearchEnabled, groupScan, suggestPayloads, decode);
    response := SearchResponse(products.results, categories);
  }
}
