/** What the retrievers pass around, and the list operations they share. */
module SearchResults {
  import opened Wrappers
  import opened Json

  type Metadata = map<string, Json>

  datatype SearchResult = SearchResult(documentId: string, chunkId: string, score: real, content: string, metadata: Metadata)

  datatype Key = Key(documentId: string, text: string)

  /** A metadata entry; a missing one reads as null. */
  function Field(metadata: Metadata, name: string): Json {
    if name in metadata then metadata[name] else JNull
  }

  /** Results with the same document and the same normalised content are one; blank content counts by chunk id. */
  function ResultKey(result: SearchResult, norm: string -> string): Key {
    Key(result.documentId, if norm(result.content) != [] then norm(result.content) else result.chunkId)
  }

  /** When two results count as one. */
  lemma SameKeyExactlyWhen(a: SearchResult, b: SearchResult, norm: string -> string)
    ensures ResultKey(a, norm) == ResultKey(b, norm) <==>
              && a.documentId == b.documentId
              && if norm(a.content) == [] && norm(b.content) == [] then a.chunkId == b.chunkId
                 else if norm(a.content) == [] then a.chunkId == norm(b.content)
                 else if norm(b.content) == [] then norm(a.content) == b.chunkId
                 else norm(a.content) == norm(b.content)
  {
  }

  /** The position, counted from 1, of the first result with this key; 0 when there is none. */
  function Rank(key: Key, results: seq<SearchResult>, norm: string -> string): (rank: nat)
    ensures rank <= |results|
  {
    if results == [] then 0
    else
      var last := |results| - 1;
      var earlier := Rank(key, results[..last], norm);
      if earlier > 0 then earlier else if ResultKey(results[last], norm) == key then |results| else 0
  }

  lemma {:induction false} RankFindsFirst(key: Key, results: seq<SearchResult>, norm: string -> string)
    ensures var rank := Rank(key, results, norm);
            && (rank == 0 ==> forall i :: 0 <= i < |results| ==> ResultKey(results[i], norm) != key)
            && (rank > 0 ==> ResultKey(results[rank - 1], norm) == key)
            && forall i :: 0 <= i < rank - 1 ==> ResultKey(results[i], norm) != key
  {
    if results != [] {
      RankFindsFirst(key, results[..|results| - 1], norm);
    }
  }

  ghost predicate DistinctKeys(results: seq<SearchResult>, norm: string -> string) {
    forall i, j :: 0 <= i < j < |results| ==> ResultKey(results[i], norm) != ResultKey(results[j], norm)
  }

  /** The keys in order of first appearance. */
  function KeysOf(results: seq<SearchResult>, norm: string -> string): seq<Key> {
    if results == [] then []
    else
      var last := |results| - 1;
      var earlier := KeysOf(results[..last], norm);
      var key := ResultKey(results[last], norm);
      if key in earlier then earlier else earlier + [key]
  }

  lemma {:induction false} KeysAreRanked(results: seq<SearchResult>, norm: string -> string)
    ensures var keys := KeysOf(results, norm);
            && (forall i, j :: 0 <= i < j < |keys| ==> keys[i] != keys[j])
            && (forall key :: key in keys <==> Rank(key, results, norm) > 0)
            && |keys| <= |results|
  {
    if results != [] {
      KeysAreRanked(results[..|results| - 1], norm);
    }
  }

  /** The first result with this key. */
  function First(key: Key, results: seq<SearchResult>, norm: string -> string): (result: SearchResult)
    requires Rank(key, results, norm) > 0
    ensures result in results
  {
    results[Rank(key, results, norm) - 1]
  }

  /** What the table has for a key that may be missing. */
  function FirstOf(key: Key, results: seq<SearchResult>, norm: string -> string): Option<SearchResult> {
    if Rank(key, results, norm) > 0 then Some(First(key, results, norm)) else None
  }

  /** One result for each key, the first with it, in order of first appearance. */
  ghost predicate IsDeduplicated(kept: seq<SearchResult>, results: seq<SearchResult>, norm: string -> string) {
    var keys := KeysOf(results, norm);
    |kept| == |keys| && forall i :: 0 <= i < |keys| ==> FirstOf(keys[i], results, norm) == Some(kept[i])
  }

  lemma RankGrows(key: Key, results: seq<SearchResult>, result: SearchResult, norm: string -> string)
    ensures var earlier := Rank(key, results, norm);
            Rank(key, results + [result], norm)
            == if earlier > 0 then earlier else if ResultKey(result, norm) == key then |results| + 1 else 0
  {
    assert (results + [result])[..|results|] == results;
  }

  lemma KeysGrow(results: seq<SearchResult>, result: SearchResult, norm: string -> string)
    ensures var earlier := KeysOf(results, norm); var key := ResultKey(result, norm);
            KeysOf(results + [result], norm) == if key in earlier then earlier else earlier + [key]
  {
    assert (results + [result])[..|results|] == results;
  }

  lemma FirstStays(key: Key, results: seq<SearchResult>, result: SearchResult, norm: string -> string)
    ensures var earlier := FirstOf(key, results, norm);
            FirstOf(key, results + [result], norm)
            == if earlier.Some? then earlier else if ResultKey(result, norm) == key then Some(result) else None
  {
    RankGrows(key, results, result, norm);
  }

  lemma DeduplicatedGrows(kept: seq<SearchResult>, results: seq<SearchResult>, result: SearchResult, norm: string -> string)
    requires IsDeduplicated(kept, results, norm)
    ensures IsDeduplicated(if ResultKey(result, norm) in KeysOf(results, norm) then kept else kept + [result],
                           results + [result], norm)
  {
    KeysGrow(results, result, norm);
    KeysAreRanked(results, norm);
    forall key
      ensures FirstOf(key, results, norm).Some? ==> FirstOf(key, results + [result], norm) == FirstOf(key, results, norm)
    {
      FirstStays(key, results, result, norm);
    }
    FirstStays(ResultKey(result, norm), results, result, norm);
  }

  method Deduplicate(results: seq<SearchResult>, norm: string -> string) returns (deduplicated: seq<SearchResult>)
    ensures IsDeduplicated(deduplicated, results, norm)
  {
    deduplicated := [];
    var seen: set<Key> := {};
    for i := 0 to |results|
      invariant IsDeduplicated(deduplicated, results[..i], norm)
      invariant forall key :: key in seen <==> key in KeysOf(results[..i], norm)
    {
      var key := ResultKey(results[i], norm);
      assert results[..i + 1] == results[..i] + [results[i]];
      DeduplicatedGrows(deduplicated, results[..i], results[i], norm);
      KeysGrow(results[..i], results[i], norm);
      if key in seen {
        continue;
      }
      seen := seen + {key};
      deduplicated := deduplicated + [results[i]];
    }
    assert results[..|results|] == results;
  }

  /** Deduplicated lists have distinct keys, keep every key, and add nothing. */
  lemma DeduplicationKeepsEachKeyOnce(kept: seq<SearchResult>, results: seq<SearchResult>, norm: string -> string)
    requires IsDeduplicated(kept, results, norm)
    ensures DistinctKeys(kept, norm)
    ensures forall r :: r in kept ==> r in results
    ensures forall key :: Rank(key, kept, norm) > 0 <==> Rank(key, results, norm) > 0
  {
    var keys := KeysOf(results, norm);
    KeysAreRanked(results, norm);
    forall i | 0 <= i < |keys|
      ensures ResultKey(kept[i], norm) == keys[i] && kept[i] in results
    {
      RankFindsFirst(keys[i], results, norm);
    }
    forall key
      ensures Rank(key, kept, norm) > 0 <==> Rank(key, results, norm) > 0
    {
      RankFindsFirst(key, kept, norm);
      if Rank(key, results, norm) > 0 {
        assert key in keys;
      }
    }
  }

  /** A prefix of at most `n` elements. */
  function Take<T>(xs: seq<T>, n: nat): seq<T> { if n < |xs| then xs[..n] else xs }

  // ---------------------------------------------------------------------------------------

  /** The elements that pass the test, in order. */
  function Select(results: seq<SearchResult>, test: SearchResult -> bool): (selected: seq<SearchResult>)
    ensures forall r :: r in selected <==> r in results && test(r)
  {
    if results == [] then []
    else
      var last := |results| - 1;
      Select(results[..last], test) + if test(results[last]) then [results[last]] else []
  }

  lemma SelectGrows(results: seq<SearchResult>, result: SearchResult, test: SearchResult -> bool)
    ensures Select(results + [result], test) == Select(results, test) + if test(result) then [result] else []
  {
    assert (results + [result])[..|results|] == results;
  }

  /** Explicit tenant metadata must name the scope; without it the result passes. */
  predicate InTenant(result: SearchResult, tenant: int) {
    var value := Field(result.metadata, "tenant_id");
    value.JNull? || Equal(value, JInt(tenant))
  }

  function TenantTest(tenant: int): SearchResult -> bool { r => InTenant(r, tenant) }

  method ApplyTenantScope(results: seq<SearchResult>, tenant: int) returns (scoped: seq<SearchResult>)
    ensures scoped == Select(results, TenantTest(tenant))
  {
    scoped := [];
    for i := 0 to |results|
      invariant scoped == Select(results[..i], TenantTest(tenant))
    {
      assert results[..i + 1] == results[..i] + [results[i]];
      SelectGrows(results[..i], results[i], TenantTest(tenant));
      var value := Field(results[i].metadata, "tenant_id");
      if !value.JNull? && !Equal(value, JInt(tenant)) {
        continue;
      }
      scoped := scoped + [results[i]];
    }
    assert results[..|results|] == results;
  }

  /** The request's filters: an empty list or company filters nothing; an entry may be any JSON value, null for an absent one. */
  datatype Filters = Filters(documentIds: seq<string>, company: string, entries: map<string, Json>)

  predicate MatchesDocument(result: SearchResult, filters: Filters) {
    filters.documentIds == [] || result.documentId in filters.documentIds
  }

  predicate MatchesCompany(result: SearchResult, filters: Filters) {
    filters.company == [] || Equal(Field(result.metadata, "company"), JString(filters.company))
  }

  predicate MatchesEntries(result: SearchResult, entries: map<string, Json>) {
    forall name :: name in entries ==> Equal(Field(result.metadata, name), entries[name])
  }

  predicate Matches(result: SearchResult, filters: Filters) {
    MatchesDocument(result, filters) && MatchesCompany(result, filters) && MatchesEntries(result, filters.entries)
  }

  function FilterTest(filters: Filters): SearchResult -> bool { r => Matches(r, filters) }

  /** The inner loop over the metadata filters, which are taken in any order. */
  method PassesEntries(result: SearchResult, entries: map<string, Json>) returns (passes: bool)
    ensures passes == MatchesEntries(result, entries)
  {
    var names := entries.Keys;
    while names != {}
      invariant names <= entries.Keys
      invariant forall name :: name in entries && name !in names ==> Equal(Field(result.metadata, name), entries[name])
      decreases |names|
    {
      var name :| name in names;
      names := names - {name};
      if !Equal(Field(result.metadata, name), entries[name]) {
        return false;
      }
    }
    passes := true;
  }

  method ApplyFilters(results: seq<SearchResult>, filters: Filters) returns (filtered: seq<SearchResult>)
    ensures filtered == Select(results, FilterTest(filters))
  {
    filtered := [];
    for i := 0 to |results|
      invariant filtered == Select(results[..i], FilterTest(filters))
    {
      var r := results[i];
      assert results[..i + 1] == results[..i] + [r];
      SelectGrows(results[..i], r, FilterTest(filters));
      if filters.documentIds != [] {
        if r.documentId !in filters.documentIds {
          continue;
        }
      }
      if filters.company != [] {
        if !Equal(Field(r.metadata, "company"), JString(filters.company)) {
          continue;
        }
      }
      var passes := PassesEntries(r, filters.entries);
      if !passes {
        continue;
      }
      filtered := filtered + [r];
    }
    assert results[..|results|] == results;
  }
}
