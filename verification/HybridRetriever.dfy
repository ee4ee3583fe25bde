/** The retrieval orchestration: tenant scopes, filters, global ranking, lexical corpus and fusion. */
module HybridRetriever {
  import opened Wrappers
  import opened Json
  import opened SearchResults
  import opened Sorting
  import opened LexicalSearch
  import opened RankFusion

  // ---------------------------------------------------------------------------------------
  // Merging tenant scopes by explicit score semantics.

  function Max(a: real, b: real): real { if a < b then b else a }

  /** A result's relevance, when its metadata says which way its score points. */
  function VectorRelevance(result: SearchResult): Option<real> {
    var similarity := Field(result.metadata, "similarity_score");
    var confidence := Field(result.metadata, "confidence");
    var semantics := Field(result.metadata, "score_semantics");
    if IsNumber(similarity) then Some(Amount(similarity))
    else if IsNumber(confidence) then Some(Amount(confidence))
    else if semantics == JString("distance") then Some(1.0 / (1.0 + Max(result.score, 0.0)))
    else if semantics == JString("similarity") || semantics == JString("relevance") then Some(result.score)
    else None
  }

  datatype Ranked = Ranked(index: nat, result: SearchResult, relevance: Option<real>)

  /** Known relevance first, highest first; then in the order of arrival. */
  predicate RanksBefore(a: Ranked, b: Ranked) {
    if a.relevance.Some? != b.relevance.Some? then a.relevance.Some?
    else if a.relevance.Some? && a.relevance.value != b.relevance.value then a.relevance.value > b.relevance.value
    else a.index < b.index
  }

  const BY_RELEVANCE: (Ranked, Ranked) -> bool := (a: Ranked, b: Ranked) => !RanksBefore(b, a)

  function Numbered(results: seq<SearchResult>): (ranked: seq<Ranked>)
    ensures |ranked| == |results|
    ensures forall i :: 0 <= i < |results| ==> ranked[i] == Ranked(i, results[i], VectorRelevance(results[i]))
  {
    seq(|results|, i requires 0 <= i < |results| => Ranked(i, results[i], VectorRelevance(results[i])))
  }

  function ResultsIn(ranked: seq<Ranked>): (results: seq<SearchResult>)
    ensures |results| == |ranked| && forall i :: 0 <= i < |ranked| ==> results[i] == ranked[i].result
  {
    seq(|ranked|, i requires 0 <= i < |ranked| => ranked[i].result)
  }

  /** Each result once, in the order of relevance; results without it last and in their first order. */
  ghost predicate IsGlobalRanking(out: seq<SearchResult>, ranked: seq<Ranked>, results: seq<SearchResult>) {
    && out == ResultsIn(ranked)
    && |ranked| == |results|
    && (forall r :: r in ranked <==> r in Numbered(results))
    && (forall i, j :: 0 <= i < j < |ranked| ==> RanksBefore(ranked[i], ranked[j]))
  }

  lemma ByRelevanceRespectsItself()
    ensures Respects(BY_RELEVANCE, BY_RELEVANCE)
  {
  }

  lemma SortingRanksGlobally(results: seq<SearchResult>)
    ensures var ranked := Sorted(Numbered(results), BY_RELEVANCE);
            IsGlobalRanking(ResultsIn(ranked), ranked, results)
  {
    var numbered := Numbered(results);
    var ranked := Sorted(numbered, BY_RELEVANCE);
    ByRelevanceRespectsItself();
    SortedPermutes(numbered, BY_RELEVANCE);
    SortedOrders(numbered, BY_RELEVANCE, BY_RELEVANCE);
    SortedStaysDistinct(numbered, BY_RELEVANCE);
    forall i, j | 0 <= i < j < |ranked|
      ensures RanksBefore(ranked[i], ranked[j])
    {
      assert BY_RELEVANCE(ranked[i], ranked[j]);
      assert ranked[i] in numbered && ranked[j] in numbered && ranked[i] != ranked[j];
    }
  }

  /** Results without any relevance are ranked as they came. */
  lemma UnknownStayInOrder(results: seq<SearchResult>)
    requires forall i :: 0 <= i < |results| ==> VectorRelevance(results[i]) == None
    ensures IsGlobalRanking(results, Numbered(results), results)
  {
    assert ResultsIn(Numbered(results)) == results;
  }

  method GloballyRankVectorResults(results: seq<SearchResult>) returns (out: seq<SearchResult>, ghost order: seq<Ranked>)
    ensures IsGlobalRanking(out, order, results)
    ensures exists ranked :: IsGlobalRanking(out, ranked, results)
  {
    var ranked: seq<Ranked> := [];
    var known := false;
    for i := 0 to |results|
      invariant ranked == Numbered(results[..i])
      invariant known <==> exists j :: 0 <= j < i && VectorRelevance(results[j]).Some?
    {
      ranked := ranked + [Ranked(i, results[i], VectorRelevance(results[i]))];
      known := known || VectorRelevance(results[i]).Some?;
    }
    assert results[..|results|] == results;
    if !known {
      UnknownStayInOrder(results);
      order := ranked;
      return results, order;
    }
    SortingRanksGlobally(results);
    ranked := Sorted(ranked, BY_RELEVANCE);
    out, order := [], ranked;
    for i := 0 to |ranked|
      invariant |out| == i && forall j :: 0 <= j < i ==> out[j] == ranked[j].result
    {
      out := out + [ranked[i].result];
    }
  }

  /** Both global rankings of the same results are the same list. */
  lemma {:induction false} GlobalRankingsAgree(out1: seq<SearchResult>, r1: seq<Ranked>, out2: seq<SearchResult>, r2: seq<Ranked>,
                                               results: seq<SearchResult>, n: nat)
    requires IsGlobalRanking(out1, r1, results) && IsGlobalRanking(out2, r2, results) && n <= |results|
    ensures forall i :: 0 <= i < n ==> r1[i] == r2[i] && out1[i] == out2[i]
  {
    if n > 0 {
      var k := n - 1;
      GlobalRankingsAgree(out1, r1, out2, r2, results, k);
      assert r1[k] in Numbered(results) && r2[k] in Numbered(results);
      assert r1[k] in r2 && r2[k] in r1;
      var m2 :| 0 <= m2 < |r2| && r2[m2] == r1[k];
      var m1 :| 0 <= m1 < |r1| && r1[m1] == r2[k];
    }
  }

  // ---------------------------------------------------------------------------------------
  // Candidates of several tenant scopes.

  /** What one scope contributes: its store's results, held to the tenant and the filters. */
  function ScopeResults(load: int -> seq<SearchResult>, tenant: int, filters: Filters): seq<SearchResult> {
    Held(load(tenant), tenant, filters)
  }

  function Held(results: seq<SearchResult>, tenant: int, filters: Filters): seq<SearchResult> {
    Select(Select(results, TenantTest(tenant)), FilterTest(filters))
  }

  method HoldToScope(results: seq<SearchResult>, tenant: int, filters: Filters) returns (filtered: seq<SearchResult>)
    ensures filtered == Held(results, tenant, filters)
  {
    var scoped := ApplyTenantScope(results, tenant);
    filtered := ApplyFilters(scoped, filters);
  }

  function Candidates(load: int -> seq<SearchResult>, scopes: seq<int>, filters: Filters): seq<SearchResult> {
    if scopes == [] then []
    else
      var last := |scopes| - 1;
      Candidates(load, scopes[..last], filters) + ScopeResults(load, scopes[last], filters)
  }

  predicate InScopes(result: SearchResult, scopes: seq<int>) { exists t :: t in scopes && InTenant(result, t) }

  lemma {:induction false} CandidatesAreInScope(load: int -> seq<SearchResult>, scopes: seq<int>, filters: Filters)
    ensures forall r :: r in Candidates(load, scopes, filters) ==> InScopes(r, scopes) && Matches(r, filters)
  {
    if scopes != [] {
      var last := |scopes| - 1;
      CandidatesAreInScope(load, scopes[..last], filters);
      forall r | r in Candidates(load, scopes, filters)
        ensures InScopes(r, scopes) && Matches(r, filters)
      {
        if r in ScopeResults(load, scopes[last], filters) {
          assert TenantTest(scopes[last])(r) && FilterTest(filters)(r);
          assert scopes[last] in scopes;
        } else {
          assert InScopes(r, scopes[..last]);
        }
      }
    }
  }

  /** A store: vector search for a number of results of a tenant, and maybe a corpus by tenant, whose loading may fail. */
  datatype Store = Store(search: (nat, int) -> seq<SearchResult>, corpus: Option<int -> Option<seq<SearchResult>>>)

  /** What a loader returns, with nothing for a failure. */
  function Loaded(load: int -> Option<seq<SearchResult>>): int -> seq<SearchResult> {
    (tenant: int) => if load(tenant).Some? then load(tenant).value else []
  }

  /** What the store finds for each tenant, asked for `n` results. */
  function Found(store: Store, n: nat): int -> seq<SearchResult> { (tenant: int) => store.search(n, tenant) }

  const BY_ID: (SearchResult, SearchResult) -> bool := (a: SearchResult, b: SearchResult) => !IdLess(b, a)

  lemma CandidatesGrow(load: int -> seq<SearchResult>, scopes: seq<int>, i: nat, filters: Filters)
    requires i < |scopes|
    ensures Candidates(load, scopes[..i + 1], filters) == Candidates(load, scopes[..i], filters) + ScopeResults(load, scopes[i], filters)
  {
    assert scopes[..i + 1][..i] == scopes[..i];
  }

  predicate Loads(load: int -> Option<seq<SearchResult>>, tenant: int) { load(tenant).Some? }

  predicate AllLoad(load: int -> Option<seq<SearchResult>>, scopes: seq<int>, n: nat)
    requires n <= |scopes|
  {
    forall i :: 0 <= i < n ==> Loads(load, scopes[i])
  }

  /** The loop over tenant scopes, given up at the first that fails to load. */
  method LoadScopes(load: int -> Option<seq<SearchResult>>, scopes: seq<int>, filters: Filters) returns (corpus: Option<seq<SearchResult>>)
    ensures corpus.Some? <==> AllLoad(load, scopes, |scopes|)
    ensures corpus.Some? ==> corpus.value == Candidates(Loaded(load), scopes, filters)
  {
    var documents := [];
    for i := 0 to |scopes|
      invariant documents == Candidates(Loaded(load), scopes[..i], filters)
      invariant AllLoad(load, scopes, i)
    {
      var loaded := load(scopes[i]);
      if loaded == None {
        assert !Loads(load, scopes[i]);
        return None;
      }
      CandidatesGrow(Loaded(load), scopes, i, filters);
      var filtered := HoldToScope(loaded.value, scopes[i], filters);
      documents := documents + filtered;
    }
    assert scopes[..|scopes|] == scopes;
    corpus := Some(documents);
  }

  /** There is a corpus exactly when the store has one and every scope loads. */
  method LoadLexicalCorpus(store: Store, scopes: seq<int>, filters: Filters, norm: string -> string)
    returns (corpus: Option<seq<SearchResult>>)
    ensures corpus.Some? <==> store.corpus.Some? && AllLoad(store.corpus.value, scopes, |scopes|)
    ensures corpus.Some? ==> IsCorpus(corpus.value, Loaded(store.corpus.value), scopes, filters, norm)
  {
    if store.corpus == None {
      return None;
    }
    var documents := LoadScopes(store.corpus.value, scopes, filters);
    if documents == None {
      return None;
    }
    var deduplicated := Deduplicate(Sorted(documents.value, BY_ID), norm);
    corpus := Some(deduplicated);
  }

  lemma CorpusIsInScope(corpus: seq<SearchResult>, load: int -> seq<SearchResult>, scopes: seq<int>, filters: Filters, norm: string -> string)
    requires IsCorpus(corpus, load, scopes, filters, norm)
    ensures DistinctKeys(corpus, norm)
    ensures forall r :: r in corpus ==> InScopes(r, scopes) && Matches(r, filters)
  {
    var candidates := Candidates(load, scopes, filters);
    DeduplicationKeepsEachKeyOnce(corpus, Sorted(candidates, BY_ID), norm);
    SortedPermutes(candidates, BY_ID);
    CandidatesAreInScope(load, scopes, filters);
  }

  // ---------------------------------------------------------------------------------------
  // Retrieval.

  const ENRICHED_QUERY_LEXICAL_WEIGHT_MULTIPLIER := 2.0

  /** A request; `enriched` says that enrichment changed the question, `query` is the tokens of the enriched one. */
  datatype Request = Request(filters: Filters, topK: int, tenant: int, includePublic: bool, enriched: bool, query: Tokens)

  function Scopes(request: Request): seq<int> {
    [request.tenant] + if request.includePublic && request.tenant != 0 then [0] else []
  }

  /** Carries no tenant, or the caller's, or the public one when the caller includes it. */
  predicate Visible(result: SearchResult, request: Request) {
    || Field(result.metadata, "tenant_id").JNull?
    || InTenant(result, request.tenant)
    || (request.includePublic && InTenant(result, 0))
  }

  lemma ScopesAreVisible(result: SearchResult, request: Request)
    ensures InScopes(result, Scopes(request)) <==> Visible(result, request)
  {
    assert request.tenant in Scopes(request);
    if request.includePublic && request.tenant != 0 {
      assert Scopes(request)[1] == 0;
    }
  }

  /** How a result list came about. */
  datatype Path = Nothing | VectorOnly(vector: seq<SearchResult>) | Merged(fusion: Fusion, ranking: seq<Key>)

  function EffectiveLexicalWeight(config: Config, request: Request): real {
    if request.enriched then config.lexicalWeight * ENRICHED_QUERY_LEXICAL_WEIGHT_MULTIPLIER else config.lexicalWeight
  }

  function CandidateCount(request: Request, config: Config): nat
    requires request.topK > 0
  {
    request.topK * config.candidateMultiplier
  }

  /** The vector channel: every scope's matches, globally ranked, one per key, cut to the candidate count. */
  ghost predicate IsVectorChannel(vector: seq<SearchResult>, request: Request, store: Store, config: Config, norm: string -> string)
    requires request.topK > 0
  {
    exists ranked, order, kept ::
      && IsGlobalRanking(ranked, order, Candidates(Found(store, CandidateCount(request, config)), Scopes(request), request.filters))
      && IsDeduplicated(kept, ranked, norm)
      && vector == Take(kept, CandidateCount(request, config))
  }

  /** The corpus: every scope's matching documents, in the order of their ids, one per key. */
  ghost predicate IsCorpus(corpus: seq<SearchResult>, load: int -> seq<SearchResult>, scopes: seq<int>, filters: Filters,
                           norm: string -> string)
  {
    IsDeduplicated(corpus, Sorted(Candidates(load, scopes, filters), BY_ID), norm)
  }

  function BestHits(corpus: seq<SearchResult>, query: Tokens, scorer: Scorer, n: nat): seq<SearchResult> {
    AnnotateAll(Take(RankingOf(corpus, query, scorer), n))
  }

  /** The lexical channel: the best hits of the corpus. */
  ghost predicate IsLexicalChannel(lexical: seq<SearchResult>, request: Request, store: Store, config: Config, scorer: Scorer,
                                   norm: string -> string)
    requires request.topK > 0
  {
    && store.corpus.Some?
    && exists corpus ::
         && IsCorpus(corpus, Loaded(store.corpus.value), Scopes(request), request.filters, norm)
         && lexical == BestHits(corpus, request.query, scorer, CandidateCount(request, config))
  }

  /** Why a retrieval may do without the lexical channel: it is switched off, there is no corpus, or the corpus has no hit. */
  ghost predicate WithoutLexical(request: Request, store: Store, config: Config, scorer: Scorer, norm: string -> string)
    requires request.topK > 0
  {
    || !config.enabled || config.lexicalWeight == 0.0
    || store.corpus == None || !AllLoad(store.corpus.value, Scopes(request), |Scopes(request)|)
    || IsLexicalChannel([], request, store, config, scorer, norm)
  }

  /** The results are what their path says. */
  ghost predicate Follows(results: seq<SearchResult>, path: Path, request: Request, store: Store, config: Config, scorer: Scorer,
                          norm: string -> string)
    requires config.Valid()
  {
    match path
    case Nothing => results == [] && request.topK <= 0
    case VectorOnly(vector) =>
      && request.topK > 0 && IsVectorChannel(vector, request, store, config, norm) && results == Take(vector, request.topK)
      && WithoutLexical(request, store, config, scorer, norm)
    case Merged(f, ranking) =>
      && request.topK > 0 && config.enabled && config.lexicalWeight > 0.0
      && f.vectorWeight == config.vectorWeight && f.lexicalWeight == EffectiveLexicalWeight(config, request)
      && f.rrfK == config.rrfK && f.norm == norm
      && IsVectorChannel(f.vector, request, store, config, norm)
      && IsLexicalChannel(f.lexical, request, store, config, scorer, norm)
      && f.lexical != []
      && IsFusion(f, results, ranking, request.topK)
  }

  /** The loop over tenant scopes. */
  method SearchScopes(search: int -> seq<SearchResult>, scopes: seq<int>, filters: Filters) returns (results: seq<SearchResult>)
    ensures results == Candidates(search, scopes, filters)
  {
    results := [];
    for i := 0 to |scopes|
      invariant results == Candidates(search, scopes[..i], filters)
    {
      CandidatesGrow(search, scopes, i, filters);
      var filtered := HoldToScope(search(scopes[i]), scopes[i], filters);
      results := results + filtered;
    }
    assert scopes[..|scopes|] == scopes;
  }

  method VectorChannel(request: Request, store: Store, config: Config, norm: string -> string) returns (vector: seq<SearchResult>)
    requires config.Valid() && request.topK > 0
    ensures IsVectorChannel(vector, request, store, config, norm)
  {
    var candidateK := CandidateCount(request, config);
    var candidates := SearchScopes(Found(store, candidateK), Scopes(request), request.filters);
    ghost var order;
    var ranked;
    ranked, order := GloballyRankVectorResults(candidates);
    var kept := Deduplicate(ranked, norm);
    vector := Take(kept, candidateK);
  }

  method FollowPaths(request: Request, store: Store, config: Config, scorer: Scorer, norm: string -> string,
                  keyBefore: (Key, Key) -> bool)
    returns (results: seq<SearchResult>, ghost path: Path)
    requires config.Valid()
    ensures Follows(results, path, request, store, config, scorer, norm)
  {
    if request.topK <= 0 {
      return [], Nothing;
    }
    var candidateK := CandidateCount(request, config);
    var vector := VectorChannel(request, store, config, norm);
    if !config.enabled || config.lexicalWeight == 0.0 {
      return Take(vector, request.topK), VectorOnly(vector);
    }
    var corpus := LoadLexicalCorpus(store, Scopes(request), request.filters, norm);
    if corpus == None || corpus.value == [] {
      return Take(vector, request.topK), VectorOnly(vector);
    }
    var lexical := Search(request.query, corpus.value, candidateK, scorer);
    assert IsLexicalChannel(lexical, request, store, config, scorer, norm);
    if lexical == [] {
      return Take(vector, request.topK), VectorOnly(vector);
    }
    var f := Fusion(vector, lexical, config.vectorWeight, EffectiveLexicalWeight(config, request), config.rrfK, norm);
    ghost var ranking;
    results, ranking := ReciprocalRankFusion(f, request.topK, keyBefore);
    path := Merged(f, ranking);
  }

  /** The whole retrieval, and what it promises whatever the store returns. */
  method Retrieve(request: Request, store: Store, config: Config, scorer: Scorer, norm: string -> string,
                  keyBefore: (Key, Key) -> bool)
    returns (results: seq<SearchResult>, ghost path: Path)
    requires config.Valid()
    ensures Follows(results, path, request, store, config, scorer, norm)
    ensures |results| <= (if request.topK < 0 then 0 else request.topK) && DistinctKeys(results, norm)
    ensures forall r :: r in results ==> Admissible(r, request)
  {
    results, path := FollowPaths(request, store, config, scorer, norm, keyBefore);
    RetrievalIsSound(results, path, request, store, config, scorer, norm);
  }

  // ---------------------------------------------------------------------------------------
  // What every retrieval promises.

  lemma RankedAreCandidates(ranked: seq<SearchResult>, order: seq<Ranked>, candidates: seq<SearchResult>)
    requires IsGlobalRanking(ranked, order, candidates)
    ensures forall r :: r in ranked ==> r in candidates
  {
    forall r | r in ranked
      ensures r in candidates
    {
      var i :| 0 <= i < |ranked| && ranked[i] == r;
      assert order[i] in order && order[i] in Numbered(candidates);
    }
  }

  lemma VectorChannelIsSound(vector: seq<SearchResult>, request: Request, store: Store, config: Config, norm: string -> string)
    requires request.topK > 0 && IsVectorChannel(vector, request, store, config, norm)
    ensures DistinctKeys(vector, norm)
    ensures forall r :: r in vector ==> Visible(r, request) && Matches(r, request.filters)
  {
    var candidates := Candidates(Found(store, CandidateCount(request, config)), Scopes(request), request.filters);
    var ranked, order, kept :|
      && IsGlobalRanking(ranked, order, candidates)
      && IsDeduplicated(kept, ranked, norm)
      && vector == Take(kept, CandidateCount(request, config));
    DeduplicationKeepsEachKeyOnce(kept, ranked, norm);
    CandidatesAreInScope(Found(store, CandidateCount(request, config)), Scopes(request), request.filters);
    RankedAreCandidates(ranked, order, candidates);
    forall r | r in vector
      ensures Visible(r, request) && Matches(r, request.filters)
    {
      assert r in kept;
      ScopesAreVisible(r, request);
    }
  }

  /** The metadata entries that fusion writes over. */
  const OVERWRITTEN: set<string> :=
    {"retrieval_strategy", "score_semantics", "rrf_score", "vector_rank", "bm25_rank", "bm25_score", "lexical_weight"}

  predicate MatchesUntouched(result: SearchResult, entries: map<string, Json>) {
    forall name :: name in entries && name !in OVERWRITTEN ==> Equal(Field(result.metadata, name), entries[name])
  }

  /** Visible, of the right document and company, and matching every filter that fusion leaves alone. */
  predicate Admissible(result: SearchResult, request: Request) {
    && Visible(result, request)
    && MatchesDocument(result, request.filters) && MatchesCompany(result, request.filters)
    && MatchesUntouched(result, request.filters.entries)
  }

  lemma MarkedStaysAdmissible(r: SearchResult, document: SearchResult, request: Request)
    requires Visible(document, request) && Matches(document, request.filters) && IsMarked(r, document)
    ensures Admissible(r, request) && Field(r.metadata, "bm25_score") == JFloat(r.score)
  {
    assert forall name :: name !in OVERWRITTEN ==> Field(r.metadata, name) == Field(document.metadata, name);
  }

  lemma HitsAreAdmissible(corpus: seq<SearchResult>, scorer: Scorer, n: nat, request: Request, norm: string -> string)
    requires DistinctKeys(corpus, norm)
    requires forall r :: r in corpus ==> InScopes(r, Scopes(request)) && Matches(r, request.filters)
    ensures var hits := BestHits(corpus, request.query, scorer, n);
            DistinctKeys(hits, norm) && forall r :: r in hits ==> Admissible(r, request) && Field(r.metadata, "bm25_score") == JFloat(r.score)
  {
    SearchIsSound(corpus, request.query, scorer, n, norm);
    forall r | r in BestHits(corpus, request.query, scorer, n)
      ensures Admissible(r, request) && Field(r.metadata, "bm25_score") == JFloat(r.score)
    {
      assert Derived(r, corpus, request.query, scorer);
      var d: SearchResult :| d in corpus && Overlap(request.query, scorer.tokenize(d.content)) && IsMarked(r, d);
      ScopesAreVisible(d, request);
      MarkedStaysAdmissible(r, d, request);
    }
  }

  lemma LexicalChannelIsSound(lexical: seq<SearchResult>, request: Request, store: Store, config: Config, scorer: Scorer,
                              norm: string -> string)
    requires request.topK > 0 && IsLexicalChannel(lexical, request, store, config, scorer, norm)
    ensures DistinctKeys(lexical, norm)
    ensures forall r :: r in lexical ==> Admissible(r, request) && Field(r.metadata, "bm25_score") == JFloat(r.score)
  {
    var n := CandidateCount(request, config);
    var load := Loaded(store.corpus.value);
    var corpus :|
      IsCorpus(corpus, load, Scopes(request), request.filters, norm) && lexical == BestHits(corpus, request.query, scorer, n);
    CorpusIsInScope(corpus, load, Scopes(request), request.filters, norm);
    HitsAreAdmissible(corpus, scorer, n, request, norm);
  }

  lemma FusedStaysAdmissible(f: Fusion, key: Key, request: Request)
    requires f.Valid() && Rank(key, f.Both(), f.norm) > 0
    requires forall r :: r in f.Both() ==> Admissible(r, request)
    ensures Admissible(Fused(f, key), request)
  {
    var record := First(key, f.Both(), f.norm);
    var metadata := Fused(f, key).metadata;
    assert Annotations(f, key).Keys == OVERWRITTEN;
    assert forall name :: name !in OVERWRITTEN ==> Field(metadata, name) == Field(record.metadata, name);
  }

  /**
   * Whatever the store returns, every result is one the caller may see, of the documents and company asked for,
   * and matches all filters on entries that fusion does not write over; the keys are distinct and at most `topK`.
   */
  lemma RetrievalIsSound(results: seq<SearchResult>, path: Path, request: Request, store: Store, config: Config, scorer: Scorer,
                         norm: string -> string)
    requires config.Valid() && Follows(results, path, request, store, config, scorer, norm)
    ensures |results| <= (if request.topK < 0 then 0 else request.topK) && DistinctKeys(results, norm)
    ensures forall r :: r in results ==> Admissible(r, request)
    ensures path.VectorOnly? ==> forall r :: r in results ==> MatchesEntries(r, request.filters.entries)
    ensures path.Merged? ==> forall r :: r in results ==> 0.0 <= r.score <= 1.0
  {
    match path
    case Nothing =>
    case VectorOnly(vector) =>
      VectorChannelIsSound(vector, request, store, config, norm);
    case Merged(f, ranking) =>
      MergedIsSound(results, f, ranking, request, store, config, scorer, norm);
  }

  lemma ChannelsAreSound(f: Fusion, request: Request, store: Store, config: Config, scorer: Scorer)
    requires request.topK > 0
    requires IsVectorChannel(f.vector, request, store, config, f.norm)
    requires IsLexicalChannel(f.lexical, request, store, config, scorer, f.norm)
    ensures DistinctLists(f)
    ensures forall r :: r in f.Both() ==> Admissible(r, request)
    ensures forall r :: r in f.lexical ==> Field(r.metadata, "bm25_score") == JFloat(r.score)
  {
    VectorChannelIsSound(f.vector, request, store, config, f.norm);
    LexicalChannelIsSound(f.lexical, request, store, config, scorer, f.norm);
  }

  lemma MergedIsSound(results: seq<SearchResult>, f: Fusion, ranking: seq<Key>, request: Request, store: Store, config: Config,
                      scorer: Scorer, norm: string -> string)
    requires config.Valid() && Follows(results, Merged(f, ranking), request, store, config, scorer, norm)
    ensures |results| <= request.topK && DistinctKeys(results, norm)
    ensures forall r :: r in results ==> Admissible(r, request) && 0.0 <= r.score <= 1.0
  {
    ChannelsAreSound(f, request, store, config, scorer);
    FusionIsSound(f, results, ranking, request.topK);
    forall r | r in results
      ensures Admissible(r, request)
    {
      var i :| 0 <= i < |results| && results[i] == r;
      FusedStaysAdmissible(f, ranking[i], request);
    }
  }

  // ---------------------------------------------------------------------------------------
  // Fusion writes over metadata that a caller may have filtered on.

  lemma {:induction false} LastIsInList(key: Key, results: seq<SearchResult>, norm: string -> string)
    ensures LastOf(key, results, norm).Some? ==> LastOf(key, results, norm).value in results
    ensures LastOf(key, results, norm).Some? <==> Rank(key, results, norm) > 0
  {
    if results != [] {
      LastIsInList(key, results[..|results| - 1], norm);
    }
  }

  /** The value is this amount, be it written as an integer, a float or a flag. */
  predicate IsAmount(value: Json, amount: real) { (IsNumber(value) || value.JBool?) && Amount(value) == amount }

  /** The value is this rank, or null for an absent one. */
  predicate IsRank(value: Json, rank: nat) { if rank == 0 then value.JNull? else IsAmount(value, rank as real) }

  /** What a filter on an overwritten entry must ask for if the fused result of this key is to satisfy it. */
  predicate SurvivesFusion(f: Fusion, key: Key, name: string, value: Json)
    requires f.Valid()
  {
    match name
    case "retrieval_strategy" => value == JString("hybrid_rrf")
    case "score_semantics" => value == JString("relevance")
    case "rrf_score" => IsAmount(value, f.Score(key))
    case "vector_rank" => IsRank(value, f.VectorRank(key))
    case "bm25_rank" => IsRank(value, f.LexicalRank(key))
    case "bm25_score" =>
      var hit := LastOf(key, f.lexical, f.norm);
      if hit.Some? then IsAmount(value, hit.value.score) else value.JNull?
    case "lexical_weight" => IsAmount(value, f.lexicalWeight)
    case _ => true
  }

  lemma AmountsAreEqual(x: real, n: int, value: Json)
    ensures Equal(JFloat(x), value) <==> IsAmount(value, x)
    ensures Equal(JInt(n), value) <==> IsAmount(value, n as real)
  {
  }

  lemma RanksAreEqual(rank: nat, value: Json)
    ensures Equal(RankValue(rank), value) <==> IsRank(value, rank)
  {
    AmountsAreEqual(0.0, rank, value);
  }

  lemma RankAnnotationMatches(f: Fusion, key: Key, name: string, value: Json)
    requires f.Valid() && (name == "vector_rank" || name == "bm25_rank")
    ensures Equal(Field(Annotations(f, key), name), value) <==> SurvivesFusion(f, key, name, value)
  {
    RanksAreEqual(f.VectorRank(key), value);
    RanksAreEqual(f.LexicalRank(key), value);
    assert Field(Annotations(f, key), name) == RankValue(if name == "vector_rank" then f.VectorRank(key) else f.LexicalRank(key));
  }

  lemma AmountAnnotationMatches(f: Fusion, key: Key, name: string, value: Json)
    requires f.Valid() && (name == "rrf_score" || name == "lexical_weight")
    ensures Equal(Field(Annotations(f, key), name), value) <==> SurvivesFusion(f, key, name, value)
  {
    AmountsAreEqual(f.Score(key), 0, value);
    AmountsAreEqual(f.lexicalWeight, 0, value);
    assert Field(Annotations(f, key), name) == JFloat(if name == "rrf_score" then f.Score(key) else f.lexicalWeight);
  }

  lemma ScoreAnnotationMatches(f: Fusion, key: Key, value: Json)
    requires f.Valid()
    requires forall r :: r in f.lexical ==> Field(r.metadata, "bm25_score") == JFloat(r.score)
    ensures Equal(Field(Annotations(f, key), "bm25_score"), value) <==> SurvivesFusion(f, key, "bm25_score", value)
  {
    ScoreAnnotation(f, key);
    var hit := LastOf(key, f.lexical, f.norm);
    if hit.Some? {
      AmountsAreEqual(hit.value.score, 0, value);
    }
  }

  lemma AnnotationMatchesExactlyWhen(f: Fusion, key: Key, name: string, value: Json)
    requires f.Valid() && name in OVERWRITTEN
    requires forall r :: r in f.lexical ==> Field(r.metadata, "bm25_score") == JFloat(r.score)
    ensures Equal(Field(Annotations(f, key), name), value) <==> SurvivesFusion(f, key, name, value)
  {
    if name == "vector_rank" || name == "bm25_rank" {
      RankAnnotationMatches(f, key, name, value);
    } else if name == "rrf_score" || name == "lexical_weight" {
      AmountAnnotationMatches(f, key, name, value);
    } else if name == "bm25_score" {
      ScoreAnnotationMatches(f, key, value);
    }
  }

  lemma ScoreAnnotation(f: Fusion, key: Key)
    requires f.Valid()
    requires forall r :: r in f.lexical ==> Field(r.metadata, "bm25_score") == JFloat(r.score)
    ensures var hit := LastOf(key, f.lexical, f.norm);
            Field(Annotations(f, key), "bm25_score") == if hit.Some? then JFloat(hit.value.score) else JNull
  {
    LastIsInList(key, f.lexical, f.norm);
  }

  /** A fused result meets the caller's metadata filters exactly when each filter on an overwritten entry asks for what fusion writes there. */
  lemma FusedResultMatchesExactlyWhen(f: Fusion, key: Key, request: Request)
    requires f.Valid() && Rank(key, f.Both(), f.norm) > 0
    requires forall r :: r in f.Both() ==> Admissible(r, request)
    requires forall r :: r in f.lexical ==> Field(r.metadata, "bm25_score") == JFloat(r.score)
    ensures var entries := request.filters.entries;
            MatchesEntries(Fused(f, key), entries) <==>
              forall name :: name in entries && name in OVERWRITTEN ==> SurvivesFusion(f, key, name, entries[name])
  {
    var entries := request.filters.entries;
    var metadata := Fused(f, key).metadata;
    FusedStaysAdmissible(f, key, request);
    assert Annotations(f, key).Keys == OVERWRITTEN;
    forall name | name in entries && name in OVERWRITTEN
      ensures Equal(Field(metadata, name), entries[name]) <==> SurvivesFusion(f, key, name, entries[name])
    {
      assert Field(metadata, name) == Field(Annotations(f, key), name);
      AnnotationMatchesExactlyWhen(f, key, name, entries[name]);
    }
  }

  /**
   Every retrieval, result by result: on the vector path the metadata filters hold; on the fused path exactly for the
   results whose written-over entries are what the filters ask for.
   */
  lemma RetrievalMatchesFiltersExactlyWhen(results: seq<SearchResult>, path: Path, request: Request, store: Store, config: Config,
                                           scorer: Scorer, norm: string -> string, i: nat)
    requires config.Valid() && Follows(results, path, request, store, config, scorer, norm) && i < |results|
    ensures var entries := request.filters.entries;
            MatchesEntries(results[i], entries) <==>
              path.VectorOnly?
              || (path.Merged? && i < |path.ranking| && path.fusion.Valid()
                  && forall name :: name in entries && name in OVERWRITTEN ==>
                       SurvivesFusion(path.fusion, path.ranking[i], name, entries[name]))
  {
    RetrievalIsSound(results, path, request, store, config, scorer, norm);
    if path.Merged? {
      ChannelsAreSound(path.fusion, request, store, config, scorer);
      FusedResultMatchesExactlyWhen(path.fusion, path.ranking[i], request);
    }
  }

  /** A filter for no vector rank passes every ordinary candidate, and then fails for exactly the fused results that have one. */
  lemma NullRankFilterSplitsResults(f: Fusion, key: Key, request: Request)
    requires f.Valid() && Rank(key, f.Both(), f.norm) > 0
    requires forall r :: r in f.Both() ==> Admissible(r, request)
    requires forall r :: r in f.lexical ==> Field(r.metadata, "bm25_score") == JFloat(r.score)
    requires request.filters.entries == map["vector_rank" := JNull]
    ensures MatchesEntries(Fused(f, key), request.filters.entries) <==> f.VectorRank(key) == 0
  {
    FusedResultMatchesExactlyWhen(f, key, request);
    assert "vector_rank" in request.filters.entries;
  }
}
