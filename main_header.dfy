/**
 * The search box of the main header (src/components/common/header/MainHeader.tsx): the
 * search history kept in localStorage as a move-to-front list, the query-length gate in front
 * of the live search, and the cap on the results shown.
 */
module MainHeader {
  import opened Wrappers
  import opened Types
  import opened Http
  import opened Seqs
  import opened Text

  /** The localStorage entry the history lives under. */
  const HistoryKey := "search-history"

  /** How many live results the dropdown shows. */
  const MaxResults := 8

  /** localStorage, with each entry already parsed as the string array the header writes there. */
  type LocalStorage = map<string, seq<string>>

  /** `JSON.parse(localStorage.getItem(key) || '[]')`: an absent entry reads as the empty history. */
  function ReadHistory(storage: LocalStorage): (h: seq<string>)
    ensures HistoryKey in storage ==> h == storage[HistoryKey]
    ensures HistoryKey !in storage ==> h == []
  {
    if HistoryKey in storage then storage[HistoryKey] else []
  }

  /** `[query, ...oldHistory.filter(item => item !== query)]` (MainHeader.tsx:93). */
  function SavedHistory(history: seq<string>, q: string): (r: seq<string>)
    ensures |r| >= 1 && r[0] == q
    ensures q !in r[1..]
  {
    [q] + RemoveAll(history, q)
  }

  /** After saving, the query occurs exactly once. */
  lemma SavedHistoryHoldsQueryOnce(history: seq<string>, q: string)
    ensures Count(SavedHistory(history, q), q) == 1
  {
    var r := SavedHistory(history, q);
    assert r == [q] + r[1..];
    CountAppend([q], r[1..], q);
  }

  /** The other entries keep their multiplicities and their relative order. */
  lemma SavedHistoryKeepsOthers(history: seq<string>, q: string, y: string)
    requires y != q
    ensures Count(SavedHistory(history, q), y) == Count(history, y)
    ensures Subsequence(SavedHistory(history, q)[1..], history)
  {
    var r := SavedHistory(history, q);
    assert r == [q] + RemoveAll(history, q);
    CountAppend([q], RemoveAll(history, q), y);
    RemoveAllCount(history, q, y);
    assert r[1..] == RemoveAll(history, q);
    RemoveAllSubsequence(history, q);
  }

  /** There is no size cap: the history grows by one, less the copies of the query it held. */
  lemma SavedHistoryLength(history: seq<string>, q: string)
    ensures |SavedHistory(history, q)| == |history| + 1 - Count(history, q)
  {
    RemoveAllLength(history, q);
  }

  /** Saving the same query twice gives the history saving it once gives. */
  lemma SavedHistoryIdempotent(history: seq<string>, q: string)
    ensures SavedHistory(SavedHistory(history, q), q) == SavedHistory(history, q)
  {
    var rest := RemoveAll(history, q);
    var once := SavedHistory(history, q);
    assert once == [q] + rest;
    RemoveAllAppend([q], rest, q);
    assert RemoveAll([q], q) == [];
    RemoveAllIdempotent(history, q);
    assert RemoveAll(once, q) == rest;
  }

  /** A duplicate-free history stays duplicate-free. */
  lemma SavedHistoryNoDuplicates(history: seq<string>, q: string)
    requires NoDuplicates(history)
    ensures NoDuplicates(SavedHistory(history, q))
  {
    var rest := RemoveAll(history, q);
    RemoveAllNoDuplicates(history, q);
    var r := SavedHistory(history, q);
    forall i, j | 0 <= i < j < |r| ensures r[i] != r[j] {
      assert r[j] == rest[j - 1];
      if i > 0 {
        assert r[i] == rest[i - 1];
      }
    }
  }

  /** `history.filter(item => item !== query)` (MainHeader.tsx:105). */
  function DeletedHistory(history: seq<string>, q: string): (r: seq<string>)
    ensures q !in r
    ensures Subsequence(r, history)
    ensures forall i :: 0 <= i < |history| && history[i] != q ==> history[i] in r
    ensures forall y :: y != q ==> Count(r, y) == Count(history, y)
  {
    RemoveAllSubsequence(history, q);
    FilterCount(history, Differs(q));
    RemoveAll(history, q)
  }

  /** Deleting twice is deleting once. */
  lemma DeletedHistoryIdempotent(history: seq<string>, q: string)
    ensures DeletedHistory(DeletedHistory(history, q), q) == DeletedHistory(history, q)
  {
    RemoveAllIdempotent(history, q);
  }

  /** Deleting a query just saved leaves the old history without that query. */
  lemma DeleteUndoesSave(history: seq<string>, q: string)
    ensures DeletedHistory(SavedHistory(history, q), q) == DeletedHistory(history, q)
  {
    SavedHistoryIdempotent(history, q);
  }

  /**
   * The gate of `handleSearchChange` (MainHeader.tsx:33): only queries whose JavaScript `length`
   * exceeds one search, and that length counts UTF-16 code units.
   */
  predicate FiresSearch(query: string) {
    Utf16Length(query) > 1
  }

  /**
   * Two characters always search and none never does; a single character searches exactly when
   * it lies outside the Basic Multilingual Plane, where JavaScript counts it as two.
   */
  lemma FiresSearchSpec(query: string)
    ensures FiresSearch(query) <==> |query| > 1 || (|query| == 1 && query[0] as int >= 0x1_0000)
  {
  }

  /** `response.data.content.slice(0, 8)` (MainHeader.tsx:50). */
  function DisplayedResults(content: seq<Job>): (r: seq<Job>)
    ensures |r| <= MaxResults
    ensures |r| <= |content| && r == content[..|r|]
    ensures |r| == if |content| < MaxResults then |content| else MaxResults
  {
    if |content| <= MaxResults then content else content[..MaxResults]
  }

  /** The header's search state and the browser's localStorage it writes. */
  class SearchBox {
    var storage: LocalStorage
    var searchQuery: string
    var searchResults: seq<Job>
    var isSearching: bool
    var history: seq<string>
    /** How many `search-history-changed` events were dispatched. */
    var historyEvents: nat

    constructor (stored: LocalStorage)
      ensures storage == stored && searchQuery == "" && searchResults == [] && !isSearching
      ensures history == [] && historyEvents == 0
    {
      storage := stored;
      searchQuery := "";
      searchResults := [];
      isSearching := false;
      history := [];
      historyEvents := 0;
    }

    /** `saveSearchHistory(query)`: move the query to the front, write, announce. */
    method SaveSearchHistory(q: string)
      modifies this
      ensures storage == old(storage)[HistoryKey := SavedHistory(ReadHistory(old(storage)), q)]
      ensures historyEvents == old(historyEvents) + 1
      ensures searchQuery == old(searchQuery) && searchResults == old(searchResults)
      ensures isSearching == old(isSearching) && history == old(history)
    {
      var oldHistory := ReadHistory(storage);
      var newHistory := [q] + RemoveAll(oldHistory, q);
      storage := storage[HistoryKey := newHistory];
      historyEvents := historyEvents + 1;
    }

    /** `getSearchHistory()`: load the stored history into the dropdown. */
    method GetSearchHistory()
      modifies this
      ensures history == ReadHistory(storage)
      ensures storage == old(storage) && historyEvents == old(historyEvents)
      ensures searchQuery == old(searchQuery) && searchResults == old(searchResults)
      ensures isSearching == old(isSearching)
    {
      history := ReadHistory(storage);
    }

    /** `deleteSearchHistory(query)`: drop every copy of the query, write, announce. */
    method DeleteSearchHistory(q: string)
      modifies this
      ensures storage == old(storage)[HistoryKey := DeletedHistory(ReadHistory(old(storage)), q)]
      ensures historyEvents == old(historyEvents) + 1
      ensures searchQuery == old(searchQuery) && searchResults == old(searchResults)
      ensures isSearching == old(isSearching) && history == old(history)
    {
      var oldHistory := ReadHistory(storage);
      storage := storage[HistoryKey := RemoveAll(oldHistory, q)];
      historyEvents := historyEvents + 1;
    }

    /**
     * The debounced search body, given what the search GET yields: an empty query returns at
     * once; otherwise the first eight results are shown, a failure is only logged, and the
     * spinner is turned off either way.
     */
    method DebouncedSearch(query: string, call: Call<seq<Job>>) returns (sent: bool)
      modifies this
      ensures sent <==> query != ""
      ensures sent && call.Resolved? ==> searchResults == DisplayedResults(call.reply.data)
      ensures !(sent && call.Resolved?) ==> searchResults == old(searchResults)
      ensures sent ==> !isSearching
      ensures !sent ==> isSearching == old(isSearching)
      ensures storage == old(storage) && history == old(history) && historyEvents == old(historyEvents)
      ensures searchQuery == old(searchQuery)
    {
      if query == "" {
        return false;
      }
      isSearching := true;
      if call.Resolved? {
        var content := call.reply.data;
        searchResults := if |content| <= MaxResults then content else content[..MaxResults];
      }
      isSearching := false;
      sent := true;
    }

    /**
     * `handleSearchChange`, with the debounce collapsed (the call runs at once): a query longer
     * than one character searches; a shorter one runs the debounced search with `''`, which sends
     * nothing, and clears the results.
     */
    method HandleSearchChange(query: string, call: Call<seq<Job>>) returns (sent: bool)
      modifies this
      ensures searchQuery == query
      ensures sent <==> FiresSearch(query)
      ensures FiresSearch(query) && call.Resolved? ==> searchResults == DisplayedResults(call.reply.data)
      ensures !FiresSearch(query) ==> searchResults == [] && isSearching == old(isSearching)
      ensures |searchResults| <= MaxResults || searchResults == old(searchResults)
      ensures storage == old(storage) && history == old(history) && historyEvents == old(historyEvents)
    {
      searchQuery := query;
      if Utf16Length(query) > 1 {
        sent := DebouncedSearch(query, call);
      } else {
        sent := DebouncedSearch("", call);
        searchResults := [];
      }
    }
  }
}
