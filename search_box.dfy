/** The storefront search box (`public/js/product_ui/search.js`): the
    recent-searches list kept in the browser's local storage, the length guards
    on typed input, and when a finished search is recorded. Local storage is the
    field `stored` (the JSON text of `recent_searches`, parsed; `None` when
    nothing is stored); the DOM is left out. */
module SearchBox {
  import opened Basics
  import ProductSearch

  const MaxRecentSearches: nat := 4

  /** The list `getRecentSearches` reads from what is stored. */
  function Recents(stored: Option<seq<string>>): (r: seq<string>)
  {
    if stored.Some? then stored.value else []
  }

  /** The list after the eviction step: the oldest entry goes when the list
      is full. */
  function Evicted(recents: seq<string>): seq<string>
  {
    if |recents| >= MaxRecentSearches then recents[1..] else recents
  }

  /** What `setRecentSearches` writes for `query`: nothing when the query is in
      the list left after eviction, otherwise that list with the query
      appended. */
  function RecordedSearches(recents: seq<string>, query: string): Option<seq<string>>
  {
    var kept := Evicted(recents);
    if query in kept then None else Some(kept + [query])
  }

  /** `recents.indexOf(query)`: the first index holding `query`, or -1. */
  method IndexOf(recents: seq<string>, query: string) returns (index: int)
    ensures -1 <= index < |recents|
    ensures index >= 0 <==> query in recents
    ensures index >= 0 ==> recents[index] == query && query !in recents[..index]
  {
    for i := 0 to |recents|
      invariant query !in recents[..i]
    {
      if recents[i] == query {
        return i;
      }
      assert recents[..i + 1] == recents[..i] + [recents[i]];
    }
    assert recents[..|recents|] == recents;
    return -1;
  }

  class RecentSearchStore {
    /** Local storage's `recent_searches`. */
    var stored: Option<seq<string>>

    constructor (storedValue: Option<seq<string>>)
      ensures stored == storedValue
    {
      stored := storedValue;
    }

    /** `getRecentSearches` */
    function GetRecentSearches(): (r: seq<string>)
      reads this
      ensures stored.None? ==> r == []
      ensures stored.Some? ==> r == stored.value
    {
      Recents(stored)
    }

    /** `setRecentSearches`: storage is written only when the query is not
        already listed after eviction. */
    method SetRecentSearches(query: string)
      modifies this
      ensures var recorded := RecordedSearches(Recents(old(stored)), query);
        stored == if recorded.None? then old(stored) else recorded
    {
      var recents := GetRecentSearches();
      if |recents| >= MaxRecentSearches {
        recents := recents[1..];
      }
      var index := IndexOf(recents, query);
      if index >= 0 {
        return;
      }
      recents := recents + [query];
      stored := Some(recents);
    }

    /** The search callback: the query is recorded only when the product
        results or the category results are non-empty. */
    method OnSearchResponse(query: string, message: Option<ProductSearch.SearchResponse>)
      modifies this
      ensures !Records(message) ==> stored == old(stored)
      ensures Records(message) ==>
        var recorded := RecordedSearches(Recents(old(stored)), query);
        stored == if recorded.None? then old(stored) else recorded
    {
      if Records(message) {
        SetRecentSearches(query);
      }
    }
  }

  /** Whether a search response makes the query a recent search. */
  predicate Records(message: Option<ProductSearch.SearchResponse>)
  {
    message.Some? && (message.value.productResults != [] || message.value.categoryResults != [])
  }

  /** The new list ends with the query, and before it comes a suffix of the old
      list; a query already listed after eviction is not written. */
  lemma RecordedSearchesShape(recents: seq<string>, query: string)
    ensures var recorded := RecordedSearches(recents, query);
      && (recorded.None? <==> query in Evicted(recents))
      && (recorded.Some? ==>
            var l := recorded.value;
            && |l| >= 1 && l[|l| - 1] == query
            && l[..|l| - 1] == recents[|recents| - (|l| - 1)..])
  {
    var recorded := RecordedSearches(recents, query);
    if recorded.Some? {
      var l := recorded.value;
      assert l[..|l| - 1] == Evicted(recents);
    }
  }

  /** A list of at most `MaxRecentSearches` entries stays within the bound,
      and a list without duplicates stays without duplicates. */
  lemma RecordedSearchesBounded(recents: seq<string>, query: string)
    requires |recents| <= MaxRecentSearches
    ensures var recorded := RecordedSearches(recents, query);
      recorded.Some? ==> |recorded.value| <= MaxRecentSearches
    ensures var recorded := RecordedSearches(recents, query);
      recorded.Some? && NoDuplicates(recents) ==> NoDuplicates(recorded.value)
  {
    var kept := Evicted(recents);
    var recorded := RecordedSearches(recents, query);
    if recorded.Some? && NoDuplicates(recents) {
      var l := recorded.value;
      forall i, j | 0 <= i < j < |l| ensures l[i] != l[j] {
        if j == |l| - 1 {
          assert l[i] in kept;
        } else {
          assert l[i] == kept[i] && l[j] == kept[j];
          if |recents| >= MaxRecentSearches {
            assert kept[i] == recents[i + 1] && kept[j] == recents[j + 1];
          }
        }
      }
    }
  }

  /** Eviction comes before the duplicate check: searching again for the
      oldest entry of a full list writes the list with that entry moved to the
      end, while searching for any other listed entry writes nothing. */
  lemma FullListReorder(recents: seq<string>, query: string)
    requires |recents| == MaxRecentSearches && NoDuplicates(recents)
    ensures query == recents[0] ==> RecordedSearches(recents, query) == Some(recents[1..] + [recents[0]])
    ensures query in recents[1..] ==> RecordedSearches(recents, query).None?
  {
    if query == recents[0] {
      forall i | 0 <= i < |recents[1..]| ensures recents[1..][i] != query {
        assert recents[1..][i] == recents[i + 1];
      }
    }
  }

  // ------------------------------------------------------------ input guards

  /** What typing into the search box does. */
  datatype InputAction = ClearResults | Ignore | StartSearch

  /** JavaScript's `s.length`: UTF-16 code units, so a character above U+FFFF
      counts twice. */
  function Utf16Length(s: string): (n: nat)
    ensures |s| <= n <= 2 * |s|
  {
    if s == [] then 0
    else Utf16Length(s[..|s| - 1]) + (if s[|s| - 1] > '\U{FFFF}' then 2 else 1)
  }

  /** Within the Basic Multilingual Plane the JavaScript length is the
      character count. */
  lemma {:induction false} Utf16LengthBmp(s: string)
    requires forall k :: 0 <= k < |s| ==> s[k] <= '\U{FFFF}'
    ensures Utf16Length(s) == |s|
  {
    if s != [] {
      Utf16LengthBmp(s[..|s| - 1]);
    }
  }

  /** The input handler: an empty box clears both result panes, one or two
      code units do nothing, three or more start a (debounced) search. */
  function OnInput(query: string): (action: InputAction)
    ensures action == ClearResults <==> query == ""
    ensures action == StartSearch <==> Utf16Length(query) >= 3
  {
    if Utf16Length(query) == 0 then ClearResults
    else if Utf16Length(query) < 3 then Ignore
    else StartSearch
  }

  /** `performSearch`'s own guard. */
  predicate PerformsSearch(query: string)
  {
    !(Utf16Length(query) < 3 || Utf16Length(query) == 0)
  }

  /** The two client guards agree: a search reaches the server exactly when
      the input handler starts one. The query then has at least two
      characters by the server's count, and at least three when it stays in
      the Basic Multilingual Plane, so there the server's own three-character
      guard never fires. */
  lemma GuardsAgree(query: string)
    ensures OnInput(query) == StartSearch <==> PerformsSearch(query)
    ensures PerformsSearch(query) ==> |query| >= 2
    ensures PerformsSearch(query) && (forall k :: 0 <= k < |query| ==> query[k] <= '\U{FFFF}') ==> |query| >= 3
  {
    if forall k :: 0 <= k < |query| ==> query[k] <= '\U{FFFF}' {
      Utf16LengthBmp(query);
    }
  }

  /** Outside the Basic Multilingual Plane the guards differ: an emoji and one
      letter are three UTF-16 code units, so the box sends the search, but
      two characters for the server, whose guard answers with empty lists. */
  lemma AstralQuerySentButRefused()
    ensures PerformsSearch("\U{1F600}a") && |"\U{1F600}a"| < 3
  {
    var q := "\U{1F600}a";
    assert q[..1] == "\U{1F600}" && q[..1][..0] == [];
  }
}
