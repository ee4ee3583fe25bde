/** What a retrieval does not leave out: it is full as long as there are matches, and the closest ones come first. */
module RetrievalCompleteness {
  import opened Wrappers
  import opened Json
  import opened SearchResults
  import opened Sorting
  import opened LexicalSearch
  import opened RankFusion
  import opened HybridRetriever

  // ---------------------------------------------------------------------------------------
  // What there is to find.

  /** The tenants whose results the caller may see. */
  function Tenants(request: Request): set<int> { {request.tenant} + if request.includePublic then {0} else {} }

  /** Loaded for the tenant, of that tenant or none, and matching the filters. */
  predicate Gives(load: int -> seq<SearchResult>, t: int, filters: Filters, r: SearchResult) {
    r in load(t) && InTenant(r, t) && Matches(r, filters)
  }

  /** Given for a visible tenant. */
  ghost predicate Offered(r: SearchResult, request: Request, load: int -> seq<SearchResult>) {
    exists t :: t in Tenants(request) && Gives(load, t, request.filters, r)
  }

  lemma ScopeGives(load: int -> seq<SearchResult>, t: int, filters: Filters, r: SearchResult)
    ensures r in ScopeResults(load, t, filters) <==> Gives(load, t, filters, r)
  {
    assert TenantTest(t)(r) <==> InTenant(r, t);
    assert FilterTest(filters)(r) <==> Matches(r, filters);
  }

  ghost predicate SomeScope(scopes: seq<int>, gives: int -> bool) { exists i :: 0 <= i < |scopes| && gives(scopes[i]) }

  lemma SomeOfMoreScopes(scopes: seq<int>, gives: int -> bool)
    requires scopes != []
    ensures SomeScope(scopes, gives) <==> SomeScope(scopes[..|scopes| - 1], gives) || gives(scopes[|scopes| - 1])
  {
    var front := scopes[..|scopes| - 1];
    if SomeScope(front, gives) {
      var i :| 0 <= i < |front| && gives(front[i]);
      assert gives(scopes[i]);
    }
    if SomeScope(scopes, gives) {
      var i :| 0 <= i < |scopes| && gives(scopes[i]);
      assert i < |front| ==> gives(front[i]);
    }
  }

  lemma {:induction false} CandidatesOfScopes(load: int -> seq<SearchResult>, scopes: seq<int>, filters: Filters, r: SearchResult,
                                              gives: int -> bool)
    requires forall t :: gives(t) <==> Gives(load, t, filters, r)
    ensures r in Candidates(load, scopes, filters) <==> SomeScope(scopes, gives)
  {
    if scopes != [] {
      var last := |scopes| - 1;
      CandidatesOfScopes(load, scopes[..last], filters, r, gives);
      ScopeGives(load, scopes[last], filters, r);
      SomeOfMoreScopes(scopes, gives);
    }
  }

  lemma CandidatesAreOffered(request: Request, load: int -> seq<SearchResult>, r: SearchResult)
    ensures r in Candidates(load, Scopes(request), request.filters) <==> Offered(r, request, load)
  {
    var gives := (t: int) => Gives(load, t, request.filters, r);
    CandidatesOfScopes(load, Scopes(request), request.filters, r, gives);
    var scopes := Scopes(request);
    assert scopes[0] == request.tenant;
    assert request.includePublic && request.tenant != 0 ==> scopes[1] == 0;
    if t :| t in Tenants(request) && Gives(load, t, request.filters, r) {
      assert gives(scopes[if t == request.tenant then 0 else 1]);
    }
  }

  function KeySet(results: seq<SearchResult>, norm: string -> string): set<Key> { set r | r in results :: ResultKey(r, norm) }

  /** The keys of everything offered. */
  ghost function OfferedKeys(request: Request, load: int -> seq<SearchResult>, norm: string -> string): set<Key> {
    set t, r | t in Tenants(request) && r in load(t) && Gives(load, t, request.filters, r) :: ResultKey(r, norm)
  }

  lemma CandidateKeys(request: Request, load: int -> seq<SearchResult>, norm: string -> string)
    ensures KeySet(Candidates(load, Scopes(request), request.filters), norm) == OfferedKeys(request, load, norm)
  {
    var candidates := Candidates(load, Scopes(request), request.filters);
    forall key
      ensures key in KeySet(candidates, norm) <==> key in OfferedKeys(request, load, norm)
    {
      forall r
        ensures r in candidates <==> Offered(r, request, load)
      {
        CandidatesAreOffered(request, load, r);
      }
    }
  }

  /** As many keys as results, when the keys are distinct. */
  lemma {:induction false} DistinctKeysCount(results: seq<SearchResult>, norm: string -> string)
    requires DistinctKeys(results, norm)
    ensures |KeySet(results, norm)| == |results|
  {
    if results != [] {
      var last := |results| - 1;
      var front := results[..last];
      DistinctKeysCount(front, norm);
      assert results == front + [results[last]];
      assert KeySet(results, norm) == KeySet(front, norm) + {ResultKey(results[last], norm)};
      assert ResultKey(results[last], norm) !in KeySet(front, norm);
    }
  }

  lemma RankMeansMember(key: Key, results: seq<SearchResult>, norm: string -> string)
    ensures key in KeySet(results, norm) <==> Rank(key, results, norm) > 0
  {
    RankFindsFirst(key, results, norm);
  }

  function Smaller(a: nat, b: nat): nat { if a < b then a else b }

  /** Distinct keys of `all`, as many as there is room for: all of them if there is room. */
  ghost predicate Fills(results: seq<SearchResult>, room: nat, all: set<Key>, norm: string -> string) {
    && DistinctKeys(results, norm) && |results| == Smaller(room, |all|) && KeySet(results, norm) <= all
    && (|results| < room ==> KeySet(results, norm) == all)
  }

  lemma SubsetOfSameSize(a: set<Key>, b: set<Key>)
    requires a <= b && |a| == |b|
    ensures a == b
  {
    assert |b - a| == |b| - |a|;
  }

  lemma SubsetIsSmaller(a: set<Key>, b: set<Key>)
    requires a <= b
    ensures |a| <= |b|
  {
    assert |b - a| == |b| - |a|;
  }

  lemma PrefixFills(results: seq<SearchResult>, n: nat, all: set<Key>, norm: string -> string)
    requires DistinctKeys(results, norm) && KeySet(results, norm) == all
    ensures Fills(Take(results, n), n, all, norm)
  {
    DistinctKeysCount(results, norm);
    var taken := Take(results, n);
    DistinctKeysCount(taken, norm);
    assert forall r :: r in taken ==> r in results;
  }

  lemma PrefixOfFilled(results: seq<SearchResult>, n: nat, room: nat, all: set<Key>, norm: string -> string)
    requires Fills(results, n, all, norm) && room <= n
    ensures Fills(Take(results, room), room, all, norm)
  {
    var taken := Take(results, room);
    assert forall r :: r in taken ==> r in results;
    DistinctKeysCount(taken, norm);
    if |taken| < room {
      SubsetOfSameSize(KeySet(taken, norm), all);
    }
  }

  lemma DeduplicatedKeys(kept: seq<SearchResult>, results: seq<SearchResult>, norm: string -> string)
    requires IsDeduplicated(kept, results, norm)
    ensures DistinctKeys(kept, norm) && KeySet(kept, norm) == KeySet(results, norm)
  {
    DeduplicationKeepsEachKeyOnce(kept, results, norm);
    forall key
      ensures key in KeySet(kept, norm) <==> key in KeySet(results, norm)
    {
      RankMeansMember(key, kept, norm);
      RankMeansMember(key, results, norm);
    }
  }

  lemma RankedKeys(ranked: seq<SearchResult>, order: seq<Ranked>, results: seq<SearchResult>, norm: string -> string)
    requires IsGlobalRanking(ranked, order, results)
    ensures KeySet(ranked, norm) == KeySet(results, norm)
  {
    forall r
      ensures r in ranked <==> r in results
    {
      if r in ranked {
        var i :| 0 <= i < |ranked| && ranked[i] == r;
        assert order[i] in order && order[i] in Numbered(results);
      }
      if r in results {
        var i :| 0 <= i < |results| && results[i] == r;
        assert Numbered(results)[i] in order;
        var j :| 0 <= j < |order| && order[j] == Numbered(results)[i];
        assert ranked[j] == r;
      }
    }
  }

  /** The global ranking and its deduplicated list that a vector channel is cut from. */
  lemma VectorChannelParts(vector: seq<SearchResult>, request: Request, store: Store, config: Config, norm: string -> string)
    returns (load: int -> seq<SearchResult>, ranked: seq<SearchResult>, order: seq<Ranked>, kept: seq<SearchResult>)
    requires request.topK > 0 && IsVectorChannel(vector, request, store, config, norm)
    ensures var n := request.topK * config.candidateMultiplier; load == Found(store, n) && vector == Take(kept, n)
    ensures IsGlobalRanking(ranked, order, Candidates(load, Scopes(request), request.filters)) && IsDeduplicated(kept, ranked, norm)
  {
    load := Found(store, request.topK * config.candidateMultiplier);
    ranked, order, kept :|
      && IsGlobalRanking(ranked, order, Candidates(load, Scopes(request), request.filters))
      && IsDeduplicated(kept, ranked, norm)
      && vector == Take(kept, CandidateCount(request, config));
  }

  /** The vector channel holds as many of the offered keys as it has room for. */
  lemma VectorChannelIsFull(vector: seq<SearchResult>, request: Request, store: Store, config: Config, norm: string -> string)
    requires request.topK > 0 && IsVectorChannel(vector, request, store, config, norm)
    ensures var n := request.topK * config.candidateMultiplier; Fills(vector, n, OfferedKeys(request, Found(store, n), norm), norm)
  {
    var load, ranked, order, kept := VectorChannelParts(vector, request, store, config, norm);
    RankedKeys(ranked, order, Candidates(load, Scopes(request), request.filters), norm);
    CandidateKeys(request, load, norm);
    DeduplicatedKeys(kept, ranked, norm);
    PrefixFills(kept, request.topK * config.candidateMultiplier, OfferedKeys(request, load, norm), norm);
  }

  // ---------------------------------------------------------------------------------------
  // The lexical channel.

  /** The keys of the documents that share a token with the query. */
  ghost function HitKeys(corpus: seq<SearchResult>, query: Tokens, scorer: Scorer, norm: string -> string): set<Key> {
    set d | d in corpus && Overlap(query, scorer.tokenize(d.content)) :: ResultKey(d, norm)
  }

  lemma {:induction false} HitsFound(indexed: seq<SearchResult>, corpus: seq<Tokens>, query: Tokens, scorer: Scorer, n: nat, i: nat)
    requires i < n <= |indexed| == |corpus| && Overlap(query, corpus[i])
    ensures exists h :: h in Hits(indexed, corpus, query, scorer, n) && h.document == indexed[i]
    decreases n
  {
    var last := n - 1;
    if i < last {
      HitsFound(indexed, corpus, query, scorer, last, i);
      var h :| h in Hits(indexed, corpus, query, scorer, last) && h.document == indexed[i];
      assert h in Hits(indexed, corpus, query, scorer, n);
    } else {
      assert Scored(indexed[i], scorer.score(corpus, query, i)) in Hits(indexed, corpus, query, scorer, n);
    }
  }

  /** Every document that shares a token with the query is ranked, and no other. */
  lemma RankingHoldsHits(corpus: seq<SearchResult>, query: Tokens, scorer: Scorer, d: SearchResult)
    ensures (exists h :: h in RankingOf(corpus, query, scorer) && h.document == d)
       <==> d in corpus && Overlap(query, scorer.tokenize(d.content))
  {
    var indexed := Indexed(corpus, scorer);
    var hits := HitsOf(corpus, query, scorer);
    SortedPermutes(hits, BY_SCORE);
    assert d in indexed <==> d in corpus && HasTokens(scorer)(d);
    if d in corpus && Overlap(query, scorer.tokenize(d.content)) {
      var i :| 0 <= i < |indexed| && indexed[i] == d;
      HitsFound(indexed, Corpus(indexed, scorer), query, scorer, |indexed|, i);
      var h :| h in hits && h.document == d;
      assert h in RankingOf(corpus, query, scorer);
    }
    if h :| h in RankingOf(corpus, query, scorer) && h.document == d {
      assert h in hits;
    }
  }

  lemma AnnotatedKeys(corpus: seq<SearchResult>, query: Tokens, scorer: Scorer, norm: string -> string)
    ensures KeySet(AnnotateAll(RankingOf(corpus, query, scorer)), norm) == HitKeys(corpus, query, scorer, norm)
  {
    var ranking := RankingOf(corpus, query, scorer);
    var all := AnnotateAll(ranking);
    forall key | key in KeySet(all, norm)
      ensures key in HitKeys(corpus, query, scorer, norm)
    {
      var i :| 0 <= i < |all| && ResultKey(all[i], norm) == key;
      RankingHoldsHits(corpus, query, scorer, ranking[i].document);
      assert ranking[i] in ranking;
    }
    forall key | key in HitKeys(corpus, query, scorer, norm)
      ensures key in KeySet(all, norm)
    {
      var d :| d in corpus && Overlap(query, scorer.tokenize(d.content)) && ResultKey(d, norm) == key;
      RankingHoldsHits(corpus, query, scorer, d);
      var h :| h in ranking && h.document == d;
      var i :| 0 <= i < |ranking| && ranking[i] == h;
      assert all[i] in all;
    }
  }

  lemma AnnotatedPrefix(ranking: seq<Scored>, n: nat)
    ensures AnnotateAll(Take(ranking, n)) == Take(AnnotateAll(ranking), n)
  {
  }

  /** The best hits are as many of the corpus's hits as there is room for. */
  lemma BestHitsAreFull(corpus: seq<SearchResult>, query: Tokens, scorer: Scorer, n: nat, norm: string -> string)
    requires DistinctKeys(corpus, norm)
    ensures Fills(BestHits(corpus, query, scorer, n), n, HitKeys(corpus, query, scorer, norm), norm)
  {
    var ranking := RankingOf(corpus, query, scorer);
    RankingKeepsKeysApart(corpus, query, scorer, norm);
    AnnotatedKeys(corpus, query, scorer, norm);
    AnnotatedPrefix(ranking, n);
    PrefixFills(AnnotateAll(ranking), n, HitKeys(corpus, query, scorer, norm), norm);
  }

  /** The lexical channel holds as many hits of the visible corpus as it has room for. */
  lemma LexicalChannelIsFull(lexical: seq<SearchResult>, request: Request, store: Store, config: Config, scorer: Scorer, norm: string -> string)
    returns (corpus: seq<SearchResult>)
    requires request.topK > 0 && IsLexicalChannel(lexical, request, store, config, scorer, norm)
    ensures IsCorpus(corpus, Loaded(store.corpus.value), Scopes(request), request.filters, norm)
    ensures Fills(lexical, request.topK * config.candidateMultiplier, HitKeys(corpus, request.query, scorer, norm), norm)
  {
    var n := request.topK * config.candidateMultiplier;
    corpus :|
      && IsCorpus(corpus, Loaded(store.corpus.value), Scopes(request), request.filters, norm)
      && lexical == BestHits(corpus, request.query, scorer, n);
    CorpusIsInScope(corpus, Loaded(store.corpus.value), Scopes(request), request.filters, norm);
    BestHitsAreFull(corpus, request.query, scorer, n, norm);
  }

  /** The corpus holds one document for each key offered by the loaders. */
  lemma CorpusHoldsOffered(corpus: seq<SearchResult>, request: Request, load: int -> seq<SearchResult>, norm: string -> string)
    requires IsCorpus(corpus, load, Scopes(request), request.filters, norm)
    ensures DistinctKeys(corpus, norm) && KeySet(corpus, norm) == OfferedKeys(request, load, norm)
  {
    var candidates := Candidates(load, Scopes(request), request.filters);
    SortedPermutes(candidates, BY_ID);
    DeduplicatedKeys(corpus, Sorted(candidates, BY_ID), norm);
    forall r
      ensures r in Sorted(candidates, BY_ID) <==> r in candidates
    {
      assert r in multiset(Sorted(candidates, BY_ID)) <==> r in multiset(candidates);
    }
    CandidateKeys(request, load, norm);
  }

  // ---------------------------------------------------------------------------------------
  // The whole retrieval.

  lemma RankingKeys(f: Fusion, ranking: seq<Key>)
    requires f.Valid() && IsRanking(f, ranking)
    ensures |ranking| == |KeySet(f.vector, f.norm) + KeySet(f.lexical, f.norm)|
    ensures forall key :: key in ranking <==> key in KeySet(f.vector, f.norm) + KeySet(f.lexical, f.norm)
  {
    var all := KeySet(f.vector, f.norm) + KeySet(f.lexical, f.norm);
    forall key
      ensures key in ranking <==> key in all
    {
      RankMeansMember(key, f.vector, f.norm);
      RankMeansMember(key, f.lexical, f.norm);
    }
    DistinctCount(ranking);
    assert (set key | key in ranking) == all;
  }

  lemma {:induction false} DistinctCount(keys: seq<Key>)
    requires Distinct(keys)
    ensures |set key | key in keys| == |keys|
  {
    if keys != [] {
      var last := |keys| - 1;
      var front := keys[..last];
      DistinctCount(front);
      assert keys == front + [keys[last]];
      assert (set key | key in keys) == (set key | key in front) + {keys[last]};
      assert keys[last] !in front;
    }
  }

  /** Where a channel was cut there are enough keys anyway. */
  lemma RoomForBoth(a: set<Key>, b: set<Key>, allA: set<Key>, allB: set<Key>, n: nat, room: nat)
    requires a <= allA && b <= allB && |a| == Smaller(n, |allA|) && |b| == Smaller(n, |allB|) && room <= n
    ensures Smaller(room, |a + b|) == Smaller(room, |allA + allB|)
    ensures |a + b| < room ==> a + b == allA + allB
  {
    SubsetIsSmaller(a, a + b);
    SubsetIsSmaller(b, a + b);
    SubsetIsSmaller(a + b, allA + allB);
    if |a| < n && |b| < n {
      SubsetOfSameSize(a, allA);
      SubsetOfSameSize(b, allB);
    }
  }

  lemma FusedKeys(f: Fusion, fused: seq<SearchResult>, ranking: seq<Key>, topK: nat)
    requires f.Valid() && IsFusion(f, fused, ranking, topK)
    ensures forall key :: key in KeySet(fused, f.norm) <==> key in ranking[..|fused|]
  {
    forall i | 0 <= i < |fused|
      ensures ResultKey(fused[i], f.norm) == ranking[i]
    {
      FusedKeepsKey(f, ranking[i]);
    }
    forall key | key in ranking[..|fused|]
      ensures key in KeySet(fused, f.norm)
    {
      var i :| 0 <= i < |fused| && ranking[i] == key;
      assert fused[i] in fused;
    }
    forall key | key in KeySet(fused, f.norm)
      ensures key in ranking[..|fused|]
    {
      var i :| 0 <= i < |fused| && ResultKey(fused[i], f.norm) == key;
    }
  }

  /** The fusion fills its room from the keys of both channels. */
  lemma FusionFillsFromChannels(f: Fusion, fused: seq<SearchResult>, ranking: seq<Key>, topK: nat)
    requires f.Valid() && IsFusion(f, fused, ranking, topK) && DistinctLists(f)
    ensures Fills(fused, topK, KeySet(f.vector, f.norm) + KeySet(f.lexical, f.norm), f.norm)
  {
    var all, some := KeySet(f.vector, f.norm) + KeySet(f.lexical, f.norm), KeySet(fused, f.norm);
    RankingKeys(f, ranking);
    FusedKeys(f, fused, ranking, topK);
    FusionIsSound(f, fused, ranking, topK);
    assert some <= all;
    if |fused| == |ranking| {
      DistinctKeysCount(fused, f.norm);
      SubsetOfSameSize(some, all);
    }
  }

  lemma FillsFromMore(results: seq<SearchResult>, room: nat, some: set<Key>, all: set<Key>, norm: string -> string)
    requires Fills(results, room, some, norm) && some <= all
    requires Smaller(room, |some|) == Smaller(room, |all|) && (|some| < room ==> some == all)
    ensures Fills(results, room, all, norm)
  {
  }

  /** That is as good as from all keys there are, whether the channels were cut or not. */
  lemma FusionIsFull(f: Fusion, fused: seq<SearchResult>, ranking: seq<Key>, topK: nat, n: nat, offered: set<Key>, hits: set<Key>)
    requires f.Valid() && IsFusion(f, fused, ranking, topK) && DistinctLists(f) && topK <= n
    requires Fills(f.vector, n, offered, f.norm) && Fills(f.lexical, n, hits, f.norm)
    ensures Fills(fused, topK, offered + hits, f.norm)
  {
    var a, b := KeySet(f.vector, f.norm), KeySet(f.lexical, f.norm);
    DistinctKeysCount(f.vector, f.norm);
    DistinctKeysCount(f.lexical, f.norm);
    RoomForBoth(a, b, offered, hits, n, topK);
    FusionFillsFromChannels(f, fused, ranking, topK);
    FillsFromMore(fused, topK, a + b, offered + hits, f.norm);
  }

  /** The fusion's parameters; a question that enrichment changed doubles the weight of the lexical channel. */
  lemma MergedParametersAre(results: seq<SearchResult>, path: Path, request: Request, store: Store, config: Config, scorer: Scorer,
                            norm: string -> string)
    requires config.Valid() && Follows(results, path, request, store, config, scorer, norm) && path.Merged?
    ensures config.enabled && config.lexicalWeight > 0.0 && path.fusion.rrfK == config.rrfK && path.fusion.norm == norm
    ensures path.fusion.vectorWeight == config.vectorWeight
    ensures path.fusion.lexicalWeight == config.lexicalWeight + if request.enriched then config.lexicalWeight else 0.0
  {
  }

  lemma MultiplierIsAtLeastOne(topK: nat, multiplier: nat)
    requires multiplier >= 1
    ensures topK <= topK * multiplier
  {
  }

  /** Without the lexical channel a retrieval has as many of the keys offered to the caller as were asked for, or all of them. */
  lemma VectorRetrievalIsFull(results: seq<SearchResult>, path: Path, request: Request, store: Store, config: Config, scorer: Scorer,
                              norm: string -> string)
    requires config.Valid() && Follows(results, path, request, store, config, scorer, norm) && path.VectorOnly?
    ensures WithoutLexical(request, store, config, scorer, norm)
    ensures var n := request.topK * config.candidateMultiplier;
            Fills(results, request.topK, OfferedKeys(request, Found(store, n), norm), norm)
  {
    var n := request.topK * config.candidateMultiplier;
    MultiplierIsAtLeastOne(request.topK, config.candidateMultiplier);
    VectorChannelIsFull(path.vector, request, store, config, norm);
    PrefixOfFilled(path.vector, n, request.topK, OfferedKeys(request, Found(store, n), norm), norm);
  }

  /** With it, as many of those and of the hits of the corpus, which has one document for each key it offers. */
  lemma MergedRetrievalIsFull(results: seq<SearchResult>, path: Path, request: Request, store: Store, config: Config, scorer: Scorer,
                              norm: string -> string)
    returns (corpus: seq<SearchResult>)
    requires config.Valid() && Follows(results, path, request, store, config, scorer, norm) && path.Merged?
    ensures store.corpus.Some? && IsCorpus(corpus, Loaded(store.corpus.value), Scopes(request), request.filters, norm)
    ensures DistinctKeys(corpus, norm) && KeySet(corpus, norm) == OfferedKeys(request, Loaded(store.corpus.value), norm)
    ensures var n := request.topK * config.candidateMultiplier;
            Fills(results, request.topK, OfferedKeys(request, Found(store, n), norm) + HitKeys(corpus, request.query, scorer, norm), norm)
  {
    var n := request.topK * config.candidateMultiplier;
    MultiplierIsAtLeastOne(request.topK, config.candidateMultiplier);
    VectorChannelIsFull(path.fusion.vector, request, store, config, norm);
    corpus := LexicalChannelIsFull(path.fusion.lexical, request, store, config, scorer, norm);
    CorpusHoldsOffered(corpus, request, Loaded(store.corpus.value), norm);
    ChannelsAreSound(path.fusion, request, store, config, scorer);
    FusionIsFull(path.fusion, results, path.ranking, request.topK, n, OfferedKeys(request, Found(store, n), norm),
                 HitKeys(corpus, request.query, scorer, norm));
  }

  // ---------------------------------------------------------------------------------------
  // The closest first.

  /** No explicit relevance, and a score that says how far away the result is. */
  predicate HasDistance(r: SearchResult) {
    && !IsNumber(Field(r.metadata, "similarity_score")) && !IsNumber(Field(r.metadata, "confidence"))
    && Field(r.metadata, "score_semantics") == JString("distance") && r.score >= 0.0
  }

  /** No explicit relevance, and a score that says how similar the result is. */
  predicate HasSimilarity(r: SearchResult) {
    && !IsNumber(Field(r.metadata, "similarity_score")) && !IsNumber(Field(r.metadata, "confidence"))
    && (Field(r.metadata, "score_semantics") == JString("similarity") || Field(r.metadata, "score_semantics") == JString("relevance"))
  }

  /** The relevance is stated outright: as a similarity score, or else as a confidence, or else as the score itself. */
  predicate HasStated(r: SearchResult) {
    IsNumber(Field(r.metadata, "similarity_score")) || IsNumber(Field(r.metadata, "confidence")) || HasSimilarity(r)
  }

  function Stated(r: SearchResult): real
    requires HasStated(r)
  {
    if IsNumber(Field(r.metadata, "similarity_score")) then Amount(Field(r.metadata, "similarity_score"))
    else if IsNumber(Field(r.metadata, "confidence")) then Amount(Field(r.metadata, "confidence"))
    else r.score
  }

  /** Nothing says which way the score points. */
  predicate HasNoDirection(r: SearchResult) {
    && !IsNumber(Field(r.metadata, "similarity_score")) && !IsNumber(Field(r.metadata, "confidence"))
    && Field(r.metadata, "score_semantics") !in {JString("distance"), JString("similarity"), JString("relevance")}
  }

  /**
   The first is closer, as far as their scores say: nearer; of higher stated relevance, where a distance d counts as
   much as a relevance of 1 / (1 + d); or alone in having a direction.
   */
  predicate Closer(a: SearchResult, b: SearchResult) {
    || (HasDistance(a) && HasDistance(b) && a.score < b.score)
    || (HasStated(a) && HasStated(b) && Stated(a) > Stated(b))
    || (HasStated(a) && HasDistance(b) && Stated(a) > 1.0 / (1.0 + b.score))
    || (HasDistance(a) && HasStated(b) && Stated(b) < 1.0 / (1.0 + a.score))
    || (!HasNoDirection(a) && HasNoDirection(b))
  }

  lemma NearerIsMoreRelevant(x: real, y: real)
    requires 0.0 <= x < y
    ensures 1.0 / (1.0 + x) > 1.0 / (1.0 + y)
  {
    var p, q := 1.0 + x, 1.0 + y;
    assert 1.0 / p - 1.0 / q == (q - p) / (p * q) by {
      assert (1.0 / p - 1.0 / q) * (p * q) == q - p;
    }
  }

  lemma CloserRanksHigher(a: SearchResult, b: SearchResult)
    requires Closer(a, b)
    ensures VectorRelevance(a).Some?
    ensures VectorRelevance(b).Some? ==> VectorRelevance(a).value > VectorRelevance(b).value
  {
    if HasDistance(a) && HasDistance(b) {
      NearerIsMoreRelevant(a.score, b.score);
    }
  }

  /** In the global ranking nothing comes after something it is closer than. */
  lemma CloserComesFirst(out: seq<SearchResult>, order: seq<Ranked>, results: seq<SearchResult>, i: nat, j: nat)
    requires IsGlobalRanking(out, order, results) && i < j < |out|
    ensures !Closer(out[j], out[i])
  {
    assert RanksBefore(order[i], order[j]);
    assert order[i] in order && order[j] in order;
    assert order[i] in Numbered(results) && order[j] in Numbered(results);
    if Closer(out[j], out[i]) {
      CloserRanksHigher(out[j], out[i]);
    }
  }

  /** Keys appear in the order of their ranks. */
  lemma {:induction false} KeysInOrder(results: seq<SearchResult>, norm: string -> string, i: nat, j: nat)
    requires i < j < |KeysOf(results, norm)|
    ensures 0 < Rank(KeysOf(results, norm)[i], results, norm) < Rank(KeysOf(results, norm)[j], results, norm)
  {
    var last := |results| - 1;
    var earlier := KeysOf(results[..last], norm);
    KeysAreRanked(results, norm);
    KeysAreRanked(results[..last], norm);
    assert KeysOf(results, norm)[i] == earlier[i] && earlier[i] in earlier;
    if j < |earlier| {
      KeysInOrder(results[..last], norm, i, j);
    }
  }

  lemma AmongFirst(kept: seq<SearchResult>, m: nat, l: nat, norm: string -> string)
    requires l < m <= |kept|
    ensures ResultKey(kept[l], norm) in KeySet(kept[..m], norm)
  {
    assert kept[..m][l] == kept[l];
  }

  /** The position among all keys at which a ranked result's key stands. */
  lemma KeyPosition(ranked: seq<SearchResult>, p: nat, norm: string -> string) returns (l: nat)
    requires p < |ranked|
    ensures l < |KeysOf(ranked, norm)| && KeysOf(ranked, norm)[l] == ResultKey(ranked[p], norm)
    ensures Rank(KeysOf(ranked, norm)[l], ranked, norm) <= p + 1
  {
    var key := ResultKey(ranked[p], norm);
    RankFindsFirst(key, ranked, norm);
    KeysAreRanked(ranked, norm);
    l :| 0 <= l < |KeysOf(ranked, norm)| && KeysOf(ranked, norm)[l] == key;
  }

  lemma KeptIsFirst(kept: seq<SearchResult>, ranked: seq<SearchResult>, i: nat, norm: string -> string)
    requires IsDeduplicated(kept, ranked, norm) && i < |kept|
    ensures var keys := KeysOf(ranked, norm);
            i < |keys| && 0 < Rank(keys[i], ranked, norm) <= |ranked|
            && kept[i] == ranked[Rank(keys[i], ranked, norm) - 1] && ResultKey(kept[i], norm) == keys[i]
  {
    var key := KeysOf(ranked, norm)[i];
    assert FirstOf(key, ranked, norm) == Some(kept[i]);
    RankFindsFirst(key, ranked, norm);
  }

  /** What was left out comes after what was kept. */
  lemma LeftOutComesLater(kept: seq<SearchResult>, ranked: seq<SearchResult>, m: nat, i: nat, p: nat, norm: string -> string) returns (q: nat)
    requires IsDeduplicated(kept, ranked, norm) && i < m <= |kept|
    requires p < |ranked| && ResultKey(ranked[p], norm) !in KeySet(kept[..m], norm)
    ensures q < p && kept[i] == ranked[q]
  {
    var l := KeyPosition(ranked, p, norm);
    KeptIsFirst(kept, ranked, i, norm);
    KeptIsFirst(kept, ranked, l, norm);
    if l < m {
      AmongFirst(kept, m, l, norm);
      assert false;
    }
    KeysInOrder(ranked, norm, i, l);
    q := Rank(KeysOf(ranked, norm)[i], ranked, norm) - 1;
  }

  /** Of what was left out, nothing is closer than what was kept. */
  lemma LeftOutIsNotCloser(ranked: seq<SearchResult>, order: seq<Ranked>, candidates: seq<SearchResult>, kept: seq<SearchResult>,
                           m: nat, i: nat, c: SearchResult, norm: string -> string)
    requires IsGlobalRanking(ranked, order, candidates) && IsDeduplicated(kept, ranked, norm) && i < m <= |kept|
    requires c in candidates && ResultKey(c, norm) !in KeySet(kept[..m], norm)
    ensures !Closer(c, kept[i])
  {
    RankedHoldsCandidate(ranked, order, candidates, c);
    var p :| 0 <= p < |ranked| && ranked[p] == c;
    var q := LeftOutComesLater(kept, ranked, m, i, p, norm);
    CloserComesFirst(ranked, order, candidates, q, p);
  }

  lemma RankedHoldsCandidate(ranked: seq<SearchResult>, order: seq<Ranked>, candidates: seq<SearchResult>, c: SearchResult)
    requires IsGlobalRanking(ranked, order, candidates) && c in candidates
    ensures c in ranked
  {
    var i :| 0 <= i < |candidates| && candidates[i] == c;
    assert Numbered(candidates)[i] in order;
    var j :| 0 <= j < |order| && order[j] == Numbered(candidates)[i];
    assert ranked[j] == c;
  }

  lemma KeptInOrder(ranked: seq<SearchResult>, order: seq<Ranked>, candidates: seq<SearchResult>, kept: seq<SearchResult>, i: nat, j: nat,
                    norm: string -> string)
    requires IsGlobalRanking(ranked, order, candidates) && IsDeduplicated(kept, ranked, norm) && i < j < |kept|
    ensures !Closer(kept[j], kept[i])
  {
    var keys := KeysOf(ranked, norm);
    KeptIsFirst(kept, ranked, i, norm);
    KeptIsFirst(kept, ranked, j, norm);
    KeysInOrder(ranked, norm, i, j);
    CloserComesFirst(ranked, order, candidates, Rank(keys[i], ranked, norm) - 1, Rank(keys[j], ranked, norm) - 1);
  }

  /** Nothing comes after something it is closer than, and nothing of another key that was offered is closer than what is there. */
  ghost predicate ClosestFirst(results: seq<SearchResult>, request: Request, load: int -> seq<SearchResult>, norm: string -> string) {
    && (forall i, j :: 0 <= i < j < |results| ==> !Closer(results[j], results[i]))
    && (forall c, i :: Offered(c, request, load) && ResultKey(c, norm) !in KeySet(results, norm) && 0 <= i < |results| ==> !Closer(c, results[i]))
  }

  lemma PrefixIsClosestFirst(ranked: seq<SearchResult>, order: seq<Ranked>, kept: seq<SearchResult>, m: nat, request: Request,
                             load: int -> seq<SearchResult>, norm: string -> string)
    requires IsGlobalRanking(ranked, order, Candidates(load, Scopes(request), request.filters))
    requires IsDeduplicated(kept, ranked, norm) && m <= |kept|
    ensures ClosestFirst(kept[..m], request, load, norm)
  {
    var candidates := Candidates(load, Scopes(request), request.filters);
    forall i, j | 0 <= i < j < m
      ensures !Closer(kept[j], kept[i])
    {
      KeptInOrder(ranked, order, candidates, kept, i, j, norm);
    }
    forall c, i | Offered(c, request, load) && ResultKey(c, norm) !in KeySet(kept[..m], norm) && 0 <= i < m
      ensures !Closer(c, kept[i])
    {
      CandidatesAreOffered(request, load, c);
      LeftOutIsNotCloser(ranked, order, candidates, kept, m, i, c, norm);
    }
  }

  /** Without the lexical channel the closest results come first, and none that was left out is closer. */
  lemma ClosestComeFirst(results: seq<SearchResult>, path: Path, request: Request, store: Store, config: Config, scorer: Scorer,
                         norm: string -> string)
    requires config.Valid() && Follows(results, path, request, store, config, scorer, norm) && path.VectorOnly?
    ensures ClosestFirst(results, request, Found(store, request.topK * config.candidateMultiplier), norm)
  {
    var load, ranked, order, kept := VectorChannelParts(path.vector, request, store, config, norm);
    MultiplierIsAtLeastOne(request.topK, config.candidateMultiplier);
    var m := Smaller(request.topK, |kept|);
    assert results == kept[..m];
    PrefixIsClosestFirst(ranked, order, kept, m, request, load, norm);
  }
}
