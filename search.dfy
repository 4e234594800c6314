/**
 * The in-memory keyword index of src/lib/search.ts: a JavaScript `Map` from a
 * path to the saved result, iterated in insertion order. Saving a path twice
 * overwrites the value and keeps the key where it first went; a search keeps
 * the first five results whose lower-cased content or path contains the
 * lower-cased query.
 */
module Search {
  import opened JsString

  datatype ContentType = Code | Document

  datatype Metadata = Metadata(path: string, kind: ContentType)

  datatype SearchResult = SearchResult(content: string, metadata: Metadata)

  const MaxResults: nat := 5

  /** The state of a `Map`: its keys in insertion order and the value of each key. */
  datatype IndexState = IndexState(order: seq<string>, entries: map<string, SearchResult>)

  /** Keys listed once each, exactly the keys of the map, each value saved under its own path. */
  ghost predicate WellFormed(st: IndexState) {
    && (forall k :: k in st.entries <==> k in st.order)
    && (forall i, j :: 0 <= i < j < |st.order| ==> st.order[i] != st.order[j])
    && (forall k :: k in st.entries ==> st.entries[k].metadata.path == k)
  }

  const Empty := IndexState([], map[])

  /** `searchIndex.set(data.metadata.path, data)`. */
  function Put(st: IndexState, data: SearchResult): IndexState {
    var k := data.metadata.path;
    IndexState(if k in st.entries then st.order else st.order + [k], st.entries[k := data])
  }

  function ValuesIn(order: seq<string>, entries: map<string, SearchResult>): seq<SearchResult>
    decreases |order|
  {
    if order == [] then []
    else (if order[0] in entries then [entries[order[0]]] else []) + ValuesIn(order[1..], entries)
  }

  /** `Array.from(searchIndex.values())`. */
  function Values(st: IndexState): seq<SearchResult> {
    ValuesIn(st.order, st.entries)
  }

  /** The filter of `searchContent`, on an already lower-cased query. */
  predicate Matches(item: SearchResult, lowered: string) {
    Includes(ToLower(item.content), lowered) || Includes(ToLower(item.metadata.path), lowered)
  }

  function Filter(items: seq<SearchResult>, lowered: string): (r: seq<SearchResult>)
    ensures |r| <= |items|
    decreases |items|
  {
    if items == [] then []
    else (if Matches(items[0], lowered) then [items[0]] else []) + Filter(items[1..], lowered)
  }

  /** `searchContent(query)` on the state `st`. */
  function SearchIn(st: IndexState, query: string): (r: seq<SearchResult>)
    ensures |r| <= MaxResults
  {
    var all := Filter(Values(st), ToLower(query));
    if |all| <= MaxResults then all else all[..MaxResults]
  }

  /** The module-level `searchIndex` and the two functions that use it. */
  class SearchIndex {
    var order: seq<string>
    var entries: map<string, SearchResult>

    function State(): IndexState
      reads this
    {
      IndexState(order, entries)
    }

    ghost predicate Valid()
      reads this
    {
      WellFormed(State())
    }

    constructor()
      ensures Valid() && State() == Empty
    {
      order := [];
      entries := map[];
    }

    /** `saveToIndex(data)`. */
    method Save(data: SearchResult)
      requires Valid()
      modifies this
      ensures Valid()
      ensures State() == Put(old(State()), data)
    {
      PutWellFormed(State(), data);
      var k := data.metadata.path;
      if k !in entries {
        order := order + [k];
      }
      entries := entries[k := data];
    }

    /** `searchContent(query)`: reads the index and changes nothing. */
    function Search(query: string): (r: seq<SearchResult>)
      reads this
      ensures |r| <= MaxResults
      ensures forall x :: x in r ==> x in Values(State()) && Matches(x, ToLower(query))
    {
      FilterMembers(Values(State()), ToLower(query));
      SearchIn(State(), query)
    }
  }

  // ---------------------------------------------------------------------------
  // Saving

  lemma PutWellFormed(st: IndexState, data: SearchResult)
    requires WellFormed(st)
    ensures WellFormed(Put(st, data))
  {
  }

  /** After a save the path holds exactly `data`, and every other path is as before. */
  lemma PutEntries(st: IndexState, data: SearchResult)
    ensures var st' := Put(st, data);
      && data.metadata.path in st'.entries && st'.entries[data.metadata.path] == data
      && (forall k :: k != data.metadata.path ==>
            (k in st'.entries <==> k in st.entries) && (k in st.entries ==> st'.entries[k] == st.entries[k]))
  {
  }

  lemma {:induction false} ValuesInIndex(order: seq<string>, entries: map<string, SearchResult>)
    requires forall k :: k in order ==> k in entries
    ensures |ValuesIn(order, entries)| == |order|
    ensures forall i :: 0 <= i < |order| ==> ValuesIn(order, entries)[i] == entries[order[i]]
    decreases |order|
  {
    if order != [] {
      assert forall k :: k in order[1..] ==> k in order;
      ValuesInIndex(order[1..], entries);
    }
  }

  /** A new path goes to the end of the iteration order. */
  lemma PutNewAppends(st: IndexState, data: SearchResult)
    requires WellFormed(st) && data.metadata.path !in st.entries
    ensures Values(Put(st, data)) == Values(st) + [data]
  {
    var st' := Put(st, data);
    PutWellFormed(st, data);
    ValuesInIndex(st.order, st.entries);
    ValuesInIndex(st'.order, st'.entries);
    assert forall i :: 0 <= i < |st.order| ==> st.order[i] != data.metadata.path;
  }

  /** Saving an existing path replaces its value in place: the key keeps its position. */
  lemma PutExistingKeepsPosition(st: IndexState, data: SearchResult, i: nat)
    requires WellFormed(st) && i < |st.order| && st.order[i] == data.metadata.path
    ensures |Values(st)| == |st.order|
    ensures Values(Put(st, data)) == Values(st)[i := data]
  {
    var st' := Put(st, data);
    PutWellFormed(st, data);
    ValuesInIndex(st.order, st.entries);
    ValuesInIndex(st'.order, st'.entries);
  }

  /** Saving several results one after the other. */
  function SaveAll(st: IndexState, docs: seq<SearchResult>): IndexState
    decreases |docs|
  {
    if docs == [] then st else Put(SaveAll(st, docs[..|docs| - 1]), docs[|docs| - 1])
  }

  lemma {:induction false} SaveAllWellFormed(st: IndexState, docs: seq<SearchResult>)
    requires WellFormed(st)
    ensures WellFormed(SaveAll(st, docs))
    decreases |docs|
  {
    if docs != [] {
      SaveAllWellFormed(st, docs[..|docs| - 1]);
      PutWellFormed(SaveAll(st, docs[..|docs| - 1]), docs[|docs| - 1]);
    }
  }

  /** A path that none of a series of saves uses keeps what it held. */
  lemma {:induction false} SaveAllUntouched(st: IndexState, docs: seq<SearchResult>, k: string)
    requires forall j :: 0 <= j < |docs| ==> docs[j].metadata.path != k
    ensures k in SaveAll(st, docs).entries <==> k in st.entries
    ensures k in st.entries ==> SaveAll(st, docs).entries[k] == st.entries[k]
    decreases |docs|
  {
    if docs != [] {
      var init := docs[..|docs| - 1];
      assert forall j :: 0 <= j < |init| ==> init[j] == docs[j];
      SaveAllUntouched(st, init, k);
    }
  }

  /** After a series of saves, a path holds the last result saved under it. */
  lemma SaveAllLastWins(st: IndexState, docs: seq<SearchResult>, j: nat)
    requires j < |docs|
    requires forall l :: j < l < |docs| ==> docs[l].metadata.path != docs[j].metadata.path
    ensures docs[j].metadata.path in SaveAll(st, docs).entries
    ensures SaveAll(st, docs).entries[docs[j].metadata.path] == docs[j]
  {
    var k := docs[j].metadata.path;
    var upto := docs[..j + 1];
    var after := docs[j + 1..];
    SaveAllAppend(st, upto, after);
    assert docs == upto + after;
    assert SaveAll(st, upto) == Put(SaveAll(st, upto[..j]), docs[j]);
    SaveAllUntouched(SaveAll(st, upto), after, k);
  }

  lemma {:induction false} SaveAllAppend(st: IndexState, a: seq<SearchResult>, b: seq<SearchResult>)
    ensures SaveAll(st, a + b) == SaveAll(SaveAll(st, a), b)
    decreases |b|
  {
    if b == [] {
      assert a + b == a;
    } else {
      SaveAllAppend(st, a, b[..|b| - 1]);
      assert (a + b)[..|a + b| - 1] == a + b[..|b| - 1];
    }
  }

  // ---------------------------------------------------------------------------
  // Searching

  lemma {:induction false} FilterMembers(items: seq<SearchResult>, lowered: string)
    ensures forall x :: x in Filter(items, lowered) <==> x in items && Matches(x, lowered)
    decreases |items|
  {
    if items != [] {
      FilterMembers(items[1..], lowered);
      assert items == [items[0]] + items[1..];
    }
  }

  /** Filtering keeps the input order: it distributes over concatenation. */
  lemma {:induction false} FilterAppend(a: seq<SearchResult>, b: seq<SearchResult>, lowered: string)
    ensures Filter(a + b, lowered) == Filter(a, lowered) + Filter(b, lowered)
    decreases |a|
  {
    if a == [] {
      assert a + b == b;
    } else {
      var head := if Matches(a[0], lowered) then [a[0]] else [];
      assert (a + b)[0] == a[0] && (a + b)[1..] == a[1..] + b;
      assert Filter(a + b, lowered) == head + Filter(a[1..] + b, lowered);
      FilterAppend(a[1..], b, lowered);
      assert Filter(a, lowered) == head + Filter(a[1..], lowered);
    }
  }

  lemma {:induction false} FilterAll(items: seq<SearchResult>, lowered: string)
    requires forall x :: x in items ==> Matches(x, lowered)
    ensures Filter(items, lowered) == items
    decreases |items|
  {
    if items != [] {
      assert forall x :: x in items[1..] ==> x in items;
      FilterAll(items[1..], lowered);
    }
  }

  /** The results are the first (at most five) matching entries, in insertion order. */
  lemma SearchResults(st: IndexState, query: string)
    ensures var r := SearchIn(st, query); var all := Filter(Values(st), ToLower(query));
      && |r| == (if |all| <= MaxResults then |all| else MaxResults)
      && r == all[..|r|]
      && (forall x :: x in r ==> x in Values(st) && Matches(x, ToLower(query)))
      && (|Filter(Values(st), ToLower(query))| <= MaxResults ==>
            forall x :: x in Values(st) && Matches(x, ToLower(query)) ==> x in r)
  {
    FilterMembers(Values(st), ToLower(query));
  }

  /** The empty query matches every entry, so the first five entries come back. */
  lemma EmptyQueryTakesFirst(st: IndexState)
    ensures var all := Values(st);
      SearchIn(st, "") == all[..if |all| <= MaxResults then |all| else MaxResults]
  {
    assert ToLower("") == "";
    forall x | x in Values(st)
      ensures Matches(x, "")
    {
      IncludesEmpty(ToLower(x.content));
    }
    FilterAll(Values(st), "");
  }

  lemma EmptyIndexFindsNothing(query: string)
    ensures SearchIn(Empty, query) == []
  {
  }

  /** A save that adds a new path adds at most that one result to any search's matches. */
  lemma SaveNewThenFilter(st: IndexState, data: SearchResult, query: string)
    requires WellFormed(st) && data.metadata.path !in st.entries
    ensures Filter(Values(Put(st, data)), ToLower(query)) ==
      Filter(Values(st), ToLower(query)) + (if Matches(data, ToLower(query)) then [data] else [])
  {
    PutNewAppends(st, data);
    FilterAppend(Values(st), [data], ToLower(query));
  }
}
