/** Ranking a corpus by a lexical score. */
module LexicalSearch {
  import opened Json
  import opened SearchResults
  import opened Sorting

  /** A document that shares a token with the query, and its score. */
  datatype Scored = Scored(document: SearchResult, score: real)

  type Tokens = seq<string>

  predicate Overlap(a: Tokens, b: Tokens) { exists t :: t in a && t in b }

  /** `tokenize` divides a text into tokens; `score` is the scoring library: corpus, query and position to score. */
  datatype Scorer = Scorer(tokenize: string -> Tokens, score: (seq<Tokens>, Tokens, nat) -> real)

  function HasTokens(scorer: Scorer): SearchResult -> bool { (r: SearchResult) => scorer.tokenize(r.content) != [] }

  /** The documents that have tokens. */
  function Indexed(documents: seq<SearchResult>, scorer: Scorer): seq<SearchResult> { Select(documents, HasTokens(scorer)) }

  function Corpus(documents: seq<SearchResult>, scorer: Scorer): (corpus: seq<Tokens>)
    ensures |corpus| == |documents| && forall i :: 0 <= i < |corpus| ==> corpus[i] == scorer.tokenize(documents[i].content)
  {
    if documents == [] then []
    else
      var last := |documents| - 1;
      Corpus(documents[..last], scorer) + [scorer.tokenize(documents[last].content)]
  }

  /** Among the first `n` indexed documents, those that share a token with the query. */
  function Hits(indexed: seq<SearchResult>, corpus: seq<Tokens>, query: Tokens, scorer: Scorer, n: nat): (hits: seq<Scored>)
    requires n <= |indexed| == |corpus|
    ensures forall h :: h in hits ==> exists i :: 0 <= i < n && h == Scored(indexed[i], scorer.score(corpus, query, i)) && Overlap(query, corpus[i])
  {
    if n == 0 then []
    else
      Hits(indexed, corpus, query, scorer, n - 1)
      + if Overlap(query, corpus[n - 1]) then [Scored(indexed[n - 1], scorer.score(corpus, query, n - 1))] else []
  }

  function HitsOf(documents: seq<SearchResult>, query: Tokens, scorer: Scorer): seq<Scored> {
    var indexed := Indexed(documents, scorer);
    Hits(indexed, Corpus(indexed, scorer), query, scorer, |indexed|)
  }

  predicate IdLess(a: SearchResult, b: SearchResult) {
    StringLess(a.documentId, b.documentId) || (a.documentId == b.documentId && StringLess(a.chunkId, b.chunkId))
  }

  /** Best score first, then by document and chunk id; a stable sort leaves equal ones in order. */
  const BY_SCORE: (Scored, Scored) -> bool :=
    (a: Scored, b: Scored) => a.score > b.score || (a.score == b.score && !IdLess(b.document, a.document))

  /** Higher score first, equal scores by ids. */
  predicate InSearchOrder(a: SearchResult, b: SearchResult) { a.score > b.score || (a.score == b.score && !IdLess(b, a)) }

  function RankingOf(documents: seq<SearchResult>, query: Tokens, scorer: Scorer): seq<Scored> {
    Sorted(HitsOf(documents, query, scorer), BY_SCORE)
  }

  function Annotate(hit: Scored): SearchResult {
    hit.document.(score := hit.score,
                  metadata := hit.document.metadata["bm25_score" := JFloat(hit.score)]["score_semantics" := JString("bm25")])
  }

  function AnnotateAll(hits: seq<Scored>): (results: seq<SearchResult>)
    ensures |results| == |hits| && forall i :: 0 <= i < |hits| ==> results[i] == Annotate(hits[i])
  {
    seq(|hits|, i requires 0 <= i < |hits| => Annotate(hits[i]))
  }

  lemma {:induction false} NoQueryNoHits(indexed: seq<SearchResult>, corpus: seq<Tokens>, scorer: Scorer, n: nat)
    requires n <= |indexed| == |corpus|
    ensures Hits(indexed, corpus, [], scorer, n) == []
  {
    if n > 0 {
      NoQueryNoHits(indexed, corpus, scorer, n - 1);
    }
  }

  /** The two lists the search builds first. */
  method BuildCorpus(documents: seq<SearchResult>, scorer: Scorer) returns (indexed: seq<SearchResult>, corpus: seq<Tokens>)
    ensures indexed == Indexed(documents, scorer) && corpus == Corpus(indexed, scorer)
  {
    indexed, corpus := [], [];
    for i := 0 to |documents|
      invariant indexed == Indexed(documents[..i], scorer)
      invariant corpus == Corpus(indexed, scorer)
    {
      var tokens := scorer.tokenize(documents[i].content);
      assert documents[..i + 1] == documents[..i] + [documents[i]];
      SelectGrows(documents[..i], documents[i], HasTokens(scorer));
      if tokens == [] {
        continue;
      }
      assert (indexed + [documents[i]])[..|indexed|] == indexed;
      indexed, corpus := indexed + [documents[i]], corpus + [tokens];
    }
    assert documents[..|documents|] == documents;
  }

  method Search(query: Tokens, documents: seq<SearchResult>, topK: int, scorer: Scorer) returns (results: seq<SearchResult>)
    ensures results == AnnotateAll(Take(RankingOf(documents, query, scorer), if topK < 0 then 0 else topK))
  {
    if topK <= 0 || documents == [] {
      return [];
    }
    if query == [] {
      var known := Indexed(documents, scorer);
      NoQueryNoHits(known, Corpus(known, scorer), scorer, |known|);
      return [];
    }
    var indexed, corpus := BuildCorpus(documents, scorer);
    if corpus == [] {
      return [];
    }
    var ranked: seq<Scored> := [];
    for i := 0 to |indexed|
      invariant ranked == Hits(indexed, corpus, query, scorer, i)
    {
      if exists t :: t in query && t in corpus[i] {
        ranked := ranked + [Scored(indexed[i], scorer.score(corpus, query, i))];
      }
    }
    ranked := Sorted(ranked, BY_SCORE);
    results := [];
    var count := if topK < |ranked| then topK else |ranked|;
    for i := 0 to count
      invariant |results| == i && forall j :: 0 <= j < i ==> results[j] == Annotate(ranked[j])
    {
      results := results + [Annotate(ranked[i])];
    }
  }

  // ---------------------------------------------------------------------------------------

  /** The document again, under this score, marked as a lexical hit. */
  predicate IsMarked(result: SearchResult, document: SearchResult) {
    && result.documentId == document.documentId && result.chunkId == document.chunkId && result.content == document.content
    && result.metadata == document.metadata + map["bm25_score" := JFloat(result.score), "score_semantics" := JString("bm25")]
  }

  /** The score is the one the library gives the document among those that have tokens. */
  ghost predicate IsScored(score: real, document: SearchResult, documents: seq<SearchResult>, query: Tokens, scorer: Scorer) {
    var indexed := Indexed(documents, scorer);
    exists i :: 0 <= i < |indexed| && indexed[i] == document && score == scorer.score(Corpus(indexed, scorer), query, i)
  }

  /** The result is a document of the corpus that shares a token with the query, scored and marked. */
  ghost predicate Derived(result: SearchResult, documents: seq<SearchResult>, query: Tokens, scorer: Scorer) {
    exists d :: d in documents && Overlap(query, scorer.tokenize(d.content)) && IsMarked(result, d)
                && IsScored(result.score, d, documents, query, scorer)
  }

  lemma AnnotatedIsMarked(hit: Scored)
    ensures IsMarked(Annotate(hit), hit.document) && Annotate(hit).score == hit.score
  {
  }

  lemma {:induction false} SelectStaysDistinct(results: seq<SearchResult>, test: SearchResult -> bool, norm: string -> string)
    requires DistinctKeys(results, norm)
    ensures DistinctKeys(Select(results, test), norm)
  {
    if results != [] {
      var last := |results| - 1;
      SelectStaysDistinct(results[..last], test, norm);
      var earlier := Select(results[..last], test);
      forall i | 0 <= i < |earlier|
        ensures ResultKey(earlier[i], norm) != ResultKey(results[last], norm)
      {
        assert earlier[i] in results[..last];
      }
    }
  }

  ghost predicate KeysApart(hits: seq<Scored>, norm: string -> string) {
    forall i, j :: 0 <= i < j < |hits| ==> ResultKey(hits[i].document, norm) != ResultKey(hits[j].document, norm)
  }

  lemma {:induction false} HitsKeepKeysApart(indexed: seq<SearchResult>, corpus: seq<Tokens>, query: Tokens, scorer: Scorer, n: nat,
                                             norm: string -> string)
    requires n <= |indexed| == |corpus| && DistinctKeys(indexed, norm)
    ensures KeysApart(Hits(indexed, corpus, query, scorer, n), norm)
  {
    if n > 0 {
      HitsKeepKeysApart(indexed, corpus, query, scorer, n - 1, norm);
      var earlier := Hits(indexed, corpus, query, scorer, n - 1);
      forall h | h in earlier
        ensures ResultKey(h.document, norm) != ResultKey(indexed[n - 1], norm)
      {
        var i :| 0 <= i < n - 1 && h.document == indexed[i];
      }
      assert forall i :: 0 <= i < |earlier| ==> earlier[i] in earlier;
    }
  }

  lemma PermutationKeepsKeysApart(hits: seq<Scored>, ranking: seq<Scored>, norm: string -> string)
    requires KeysApart(hits, norm) && Distinct(ranking) && forall h :: h in ranking ==> h in hits
    ensures KeysApart(ranking, norm)
  {
    forall i, j | 0 <= i < j < |ranking|
      ensures ResultKey(ranking[i].document, norm) != ResultKey(ranking[j].document, norm)
    {
      assert ranking[i] in ranking && ranking[j] in ranking;
      var a :| 0 <= a < |hits| && hits[a] == ranking[i];
      var b :| 0 <= b < |hits| && hits[b] == ranking[j];
    }
  }

  lemma RankingKeepsKeysApart(documents: seq<SearchResult>, query: Tokens, scorer: Scorer, norm: string -> string)
    requires DistinctKeys(documents, norm)
    ensures KeysApart(RankingOf(documents, query, scorer), norm)
  {
    var indexed := Indexed(documents, scorer);
    var hits := HitsOf(documents, query, scorer);
    SelectStaysDistinct(documents, HasTokens(scorer), norm);
    HitsKeepKeysApart(indexed, Corpus(indexed, scorer), query, scorer, |indexed|, norm);
    SortedPermutes(hits, BY_SCORE);
    SortedStaysDistinct(hits, BY_SCORE);
    PermutationKeepsKeysApart(hits, RankingOf(documents, query, scorer), norm);
  }

  lemma IdsCompare(a: SearchResult, b: SearchResult)
    ensures !(IdLess(a, b) && IdLess(b, a))
  {
    StringsCompare(a.documentId, b.documentId);
    StringsCompare(a.chunkId, b.chunkId);
  }

  lemma IdsAreTransitive(a: SearchResult, b: SearchResult, c: SearchResult)
    requires !IdLess(b, a) && !IdLess(c, b)
    ensures !IdLess(c, a)
  {
    NoGreaterIsTransitive(a.documentId, b.documentId, c.documentId);
    StringsCompare(a.documentId, b.documentId);
    StringsCompare(b.documentId, c.documentId);
    StringsCompare(a.documentId, c.documentId);
    if a.documentId == b.documentId == c.documentId {
      NoGreaterIsTransitive(a.chunkId, b.chunkId, c.chunkId);
    }
  }

  lemma SearchOrderRespectsItself()
    ensures Respects(BY_SCORE, BY_SCORE)
  {
    forall x, y | !BY_SCORE(x, y)
      ensures BY_SCORE(y, x)
    {
      IdsCompare(x.document, y.document);
    }
    forall x, y, z | BY_SCORE(x, y) && BY_SCORE(y, z)
      ensures BY_SCORE(x, z)
    {
      if x.score == y.score == z.score {
        IdsAreTransitive(x.document, y.document, z.document);
      }
    }
  }

  /** The search's results: from the corpus, in the order of score and ids, one per key if the corpus has one per key. */
  lemma SearchIsSound(documents: seq<SearchResult>, query: Tokens, scorer: Scorer, topK: nat, norm: string -> string)
    ensures var results := AnnotateAll(Take(RankingOf(documents, query, scorer), topK));
            && |results| <= topK
            && (forall r :: r in results ==> Derived(r, documents, query, scorer))
            && (forall i, j :: 0 <= i < j < |results| ==> InSearchOrder(results[i], results[j]))
            && (DistinctKeys(documents, norm) ==> DistinctKeys(results, norm))
  {
    var hits := HitsOf(documents, query, scorer);
    var ranking := RankingOf(documents, query, scorer);
    var results := AnnotateAll(Take(ranking, topK));
    SortedPermutes(hits, BY_SCORE);
    SearchOrderRespectsItself();
    SortedOrders(hits, BY_SCORE, BY_SCORE);
    forall r | r in results
      ensures Derived(r, documents, query, scorer)
    {
      var i :| 0 <= i < |results| && results[i] == r;
      assert ranking[i] in hits;
      AnnotatedIsMarked(ranking[i]);
    }
    forall i, j | 0 <= i < j < |results|
      ensures InSearchOrder(results[i], results[j])
    {
      assert BY_SCORE(ranking[i], ranking[j]);
    }
    if DistinctKeys(documents, norm) {
      RankingKeepsKeysApart(documents, query, scorer, norm);
    }
  }
}
