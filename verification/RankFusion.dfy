/** Reciprocal-rank fusion of a vector ranking and a lexical ranking. */
module RankFusion {
  import opened Wrappers
  import opened Json
  import opened SearchResults
  import opened Sorting

  datatype Config = Config(enabled: bool, vectorWeight: real, lexicalWeight: real, rrfK: nat, candidateMultiplier: nat) {
    predicate Valid() {
      vectorWeight >= 0.0 && lexicalWeight >= 0.0 && vectorWeight + lexicalWeight > 0.0 && rrfK >= 1 && candidateMultiplier >= 1
    }
  }

  datatype ConfigError = NegativeWeight | NoWeight | ConstantTooSmall | MultiplierTooSmall

  /** A configuration is checked when it is made: the first check that fails refuses it, and what passes is valid. */
  method Configure(enabled: bool, vectorWeight: real, lexicalWeight: real, rrfK: int, candidateMultiplier: int)
    returns (r: Result<Config, ConfigError>)
    ensures r == Failure(NegativeWeight) <==> vectorWeight < 0.0 || lexicalWeight < 0.0
    ensures r == Failure(NoWeight) <==> vectorWeight == 0.0 && lexicalWeight == 0.0
    ensures r.Failure? && r.error.ConstantTooSmall? ==> rrfK < 1
    ensures r.Failure? && r.error.MultiplierTooSmall? ==> rrfK >= 1 && candidateMultiplier < 1
    ensures r.Success? ==> rrfK >= 1 && candidateMultiplier >= 1
                           && r.value == Config(enabled, vectorWeight, lexicalWeight, rrfK, candidateMultiplier) && r.value.Valid()
  {
    if vectorWeight < 0.0 || lexicalWeight < 0.0 {
      return Failure(NegativeWeight);
    }
    if vectorWeight + lexicalWeight <= 0.0 {
      return Failure(NoWeight);
    }
    if rrfK < 1 {
      return Failure(ConstantTooSmall);
    }
    if candidateMultiplier < 1 {
      return Failure(MultiplierTooSmall);
    }
    r := Success(Config(enabled, vectorWeight, lexicalWeight, rrfK, candidateMultiplier));
  }

  /** What a result at a rank, counted from 1, adds to its key's score. */
  function Shares(weight: real, rrfK: nat): nat -> real
    requires rrfK >= 1
  {
    (rank: nat) => weight / (rrfK + rank) as real
  }

  /** What one channel adds to a key's score: the share of its rank, once for each appearance. */
  function Contribution(key: Key, results: seq<SearchResult>, share: nat -> real, norm: string -> string): real {
    if results == [] then 0.0
    else
      var last := |results| - 1;
      Contribution(key, results[..last], share, norm) + if ResultKey(results[last], norm) == key then share(|results|) else 0.0
  }

  lemma ContributionGrows(key: Key, results: seq<SearchResult>, result: SearchResult, share: nat -> real, norm: string -> string)
    ensures Contribution(key, results + [result], share, norm)
         == Contribution(key, results, share, norm) + if ResultKey(result, norm) == key then share(|results| + 1) else 0.0
  {
    assert (results + [result])[..|results|] == results;
  }

  /** In a list with distinct keys the only appearance is at the rank. */
  lemma {:induction false} ContributionAtRank(key: Key, results: seq<SearchResult>, share: nat -> real, norm: string -> string)
    requires DistinctKeys(results, norm)
    ensures var rank := Rank(key, results, norm);
            Contribution(key, results, share, norm) == if rank == 0 then 0.0 else share(rank)
  {
    if results != [] {
      var last := |results| - 1;
      ContributionAtRank(key, results[..last], share, norm);
      RankFindsFirst(key, results[..last], norm);
    }
  }

  // ---------------------------------------------------------------------------------------

  /** The two rankings and the parameters of one fusion. */
  datatype Fusion = Fusion(vector: seq<SearchResult>, lexical: seq<SearchResult>,
                           vectorWeight: real, lexicalWeight: real, rrfK: nat, norm: string -> string) {
    predicate Valid() { vectorWeight >= 0.0 && lexicalWeight >= 0.0 && vectorWeight + lexicalWeight > 0.0 && rrfK >= 1 }

    function Both(): seq<SearchResult> { vector + lexical }

    function Keys(): seq<Key> { KeysOf(Both(), norm) }

    function VectorRank(key: Key): nat { Rank(key, vector, norm) }

    function LexicalRank(key: Key): nat { Rank(key, lexical, norm) }

    /** A rank for ordering: an absent one counts as one more than the number of keys. */
    function Effective(rank: nat): nat { if rank == 0 then |Keys()| + 1 else rank }

    function Score(key: Key): real
      requires Valid()
    {
      Contribution(key, vector, Shares(vectorWeight, rrfK), norm)
      + Contribution(key, lexical, Shares(lexicalWeight, rrfK), norm)
    }

    function MaximumScore(): (max: real)
      requires Valid()
      ensures max > 0.0
    {
      PositiveQuotient(vectorWeight + lexicalWeight, (rrfK + 1) as real);
      (vectorWeight + lexicalWeight) / (rrfK + 1) as real
    }

    /** The order of the fused list: by score, then vector rank, then lexical rank. */
    predicate Precedes(a: Key, b: Key)
      requires Valid()
    {
      || Score(a) > Score(b)
      || (Score(a) == Score(b)
          && (|| Effective(VectorRank(a)) < Effective(VectorRank(b))
              || (Effective(VectorRank(a)) == Effective(VectorRank(b))
                  && Effective(LexicalRank(a)) < Effective(LexicalRank(b)))))
    }
  }

  lemma PositiveQuotient(a: real, b: real)
    requires a > 0.0 && b > 0.0
    ensures a / b > 0.0
  {
  }

  // ---------------------------------------------------------------------------------------
  // The accumulating loops.

  function Lookup<V>(m: map<Key, V>, key: Key): Option<V> { if key in m then Some(m[key]) else None }

  function SetDefault<V>(m: map<Key, V>, key: Key, value: V): map<Key, V> { if key in m then m else m[key := value] }

  /** The insertion order of a table after a key is set that may be there already. */
  function AddOnce<V>(keys: seq<Key>, key: Key, m: map<Key, V>): seq<Key> { if key in m then keys else keys + [key] }

  /** The first result of each key seen so far. */
  ghost predicate RecordsOf(records: map<Key, SearchResult>, seen: seq<SearchResult>, norm: string -> string) {
    forall key :: Lookup(records, key) == FirstOf(key, seen, norm)
  }

  function RankOf(key: Key, results: seq<SearchResult>, norm: string -> string): Option<nat> {
    var rank := Rank(key, results, norm);
    if rank > 0 then Some(rank) else None
  }

  ghost predicate RanksOf(ranks: map<Key, nat>, results: seq<SearchResult>, norm: string -> string) {
    forall key :: Lookup(ranks, key) == RankOf(key, results, norm)
  }

  /** The score table, where a missing key counts as zero. */
  function ScoreIn(scores: map<Key, real>, key: Key): real { if key in scores then scores[key] else 0.0 }

  ghost predicate ScoresAdd(scores: map<Key, real>, before: map<Key, real>, results: seq<SearchResult>,
                            share: nat -> real, norm: string -> string)
  {
    forall key :: ScoreIn(scores, key) == ScoreIn(before, key) + Contribution(key, results, share, norm)
  }

  lemma RecordsGrow(records: map<Key, SearchResult>, seen: seq<SearchResult>, result: SearchResult, norm: string -> string)
    requires RecordsOf(records, seen, norm)
    ensures var key := ResultKey(result, norm);
            RecordsOf(SetDefault(records, key, result), seen + [result], norm)
  {
    var key := ResultKey(result, norm);
    var records' := SetDefault(records, key, result);
    assert Lookup(records, key) == FirstOf(key, seen, norm);
    forall k
      ensures Lookup(records', k) == FirstOf(k, seen + [result], norm)
    {
      FirstStays(k, seen, result, norm);
      assert Lookup(records, k) == FirstOf(k, seen, norm);
    }
  }

  lemma KeysGrowWith(records: map<Key, SearchResult>, seen: seq<SearchResult>, result: SearchResult, norm: string -> string)
    requires RecordsOf(records, seen, norm)
    ensures var key := ResultKey(result, norm);
            KeysOf(seen + [result], norm) == AddOnce(KeysOf(seen, norm), key, records)
  {
    KeysGrow(seen, result, norm);
    KeysAreRanked(seen, norm);
    var key := ResultKey(result, norm);
    assert Lookup(records, key) == FirstOf(key, seen, norm);
  }

  lemma RanksGrow(ranks: map<Key, nat>, results: seq<SearchResult>, result: SearchResult, norm: string -> string)
    requires RanksOf(ranks, results, norm)
    ensures var key := ResultKey(result, norm);
            RanksOf(SetDefault<nat>(ranks, key, |results| + 1), results + [result], norm)
  {
    var key := ResultKey(result, norm);
    var ranks' := SetDefault<nat>(ranks, key, |results| + 1);
    assert Lookup(ranks, key) == RankOf(key, results, norm);
    forall k
      ensures Lookup(ranks', k) == RankOf(k, results + [result], norm)
    {
      RankGrows(k, results, result, norm);
      assert Lookup(ranks, k) == RankOf(k, results, norm);
    }
  }

  lemma ScoresGrow(scores: map<Key, real>, before: map<Key, real>, results: seq<SearchResult>, result: SearchResult,
                   share: nat -> real, norm: string -> string)
    requires ScoresAdd(scores, before, results, share, norm)
    ensures var key := ResultKey(result, norm);
            ScoresAdd(scores[key := ScoreIn(scores, key) + share(|results| + 1)], before, results + [result],
                      share, norm)
  {
    forall key
      ensures Contribution(key, results + [result], share, norm)
           == Contribution(key, results, share, norm)
              + if ResultKey(result, norm) == key then share(|results| + 1) else 0.0
    {
      ContributionGrows(key, results, result, share, norm);
    }
  }

  lemma PrefixStep(seen: seq<SearchResult>, results: seq<SearchResult>, i: nat)
    requires i < |results|
    ensures results[..i + 1] == results[..i] + [results[i]]
    ensures seen + results[..i + 1] == seen + results[..i] + [results[i]]
  {
  }

  /** The tables after a channel's results, when the channel began with `scores0` and the results `seen`; `keys` is the insertion order. */
  ghost predicate Filled(records: map<Key, SearchResult>, keys: seq<Key>, scores: map<Key, real>, ranks: map<Key, nat>,
                         scores0: map<Key, real>, seen: seq<SearchResult>, results: seq<SearchResult>,
                         share: nat -> real, norm: string -> string) {
    && RecordsOf(records, seen + results, norm)
    && keys == KeysOf(seen + results, norm)
    && ScoresAdd(scores, scores0, results, share, norm)
    && RanksOf(ranks, results, norm)
  }

  lemma FilledGrows(records: map<Key, SearchResult>, keys: seq<Key>, scores: map<Key, real>, ranks: map<Key, nat>,
                    scores0: map<Key, real>, seen: seq<SearchResult>, results: seq<SearchResult>, i: nat,
                    share: nat -> real, norm: string -> string)
    requires i < |results| && Filled(records, keys, scores, ranks, scores0, seen, results[..i], share, norm)
    ensures var key := ResultKey(results[i], norm);
            Filled(SetDefault(records, key, results[i]), AddOnce(keys, key, records),
                   scores[key := ScoreIn(scores, key) + share(i + 1)], SetDefault<nat>(ranks, key, i + 1), scores0, seen, results[..i + 1], share, norm)
  {
    var done := results[..i];
    PrefixStep(seen, results, i);
    KeysGrowWith(records, seen + done, results[i], norm);
    RecordsGrow(records, seen + done, results[i], norm);
    RanksGrow(ranks, done, results[i], norm);
    ScoresGrow(scores, scores0, done, results[i], share, norm);
  }

  /** One channel's loop: fill in the records, this channel's ranks, and add to the scores. */
  method AddChannel(records0: map<Key, SearchResult>, keys0: seq<Key>, scores0: map<Key, real>, ghost seen: seq<SearchResult>,
                    results: seq<SearchResult>, share: nat -> real, norm: string -> string)
    returns (records: map<Key, SearchResult>, keys: seq<Key>, scores: map<Key, real>, ranks: map<Key, nat>)
    requires RecordsOf(records0, seen, norm) && keys0 == KeysOf(seen, norm)
    ensures Filled(records, keys, scores, ranks, scores0, seen, results, share, norm)
  {
    records, keys, scores, ranks := records0, keys0, scores0, map[];
    assert seen + results[..0] == seen;
    for i := 0 to |results|
      invariant Filled(records, keys, scores, ranks, scores0, seen, results[..i], share, norm)
    {
      FilledGrows(records, keys, scores, ranks, scores0, seen, results, i, share, norm);
      var key := ResultKey(results[i], norm);
      keys := AddOnce(keys, key, records);
      records := SetDefault(records, key, results[i]);
      ranks := SetDefault<nat>(ranks, key, i + 1);
      scores := scores[key := ScoreIn(scores, key) + share(i + 1)];
    }
    assert results[..|results|] == results;
  }

  // ---------------------------------------------------------------------------------------
  // The sort.

  /** A key with what the sort compares. */
  datatype Entry = Entry(key: Key, score: real, vectorRank: nat, lexicalRank: nat)

  predicate NoLater(a: Entry, b: Entry) {
    || a.score > b.score
    || (a.score == b.score
        && (a.vectorRank < b.vectorRank || (a.vectorRank == b.vectorRank && a.lexicalRank <= b.lexicalRank)))
  }

  /** The source's sort key; the last component, the key itself, is compared by `keyBefore`. */
  function Comparison(keyBefore: (Key, Key) -> bool): (Entry, Entry) -> bool {
    (a: Entry, b: Entry) =>
      NoLater(a, b)
      && (a.score == b.score && a.vectorRank == b.vectorRank && a.lexicalRank == b.lexicalRank ==> keyBefore(a.key, b.key))
  }

  const NO_LATER: (Entry, Entry) -> bool := (a, b) => NoLater(a, b)

  lemma ComparisonRespectsOrder(keyBefore: (Key, Key) -> bool)
    ensures Respects(Comparison(keyBefore), NO_LATER)
  {
  }

  function EntryOf(f: Fusion, key: Key): Entry
    requires f.Valid()
  {
    Entry(key, f.Score(key), f.Effective(f.VectorRank(key)), f.Effective(f.LexicalRank(key)))
  }

  function EntriesOf(f: Fusion, keys: seq<Key>): (entries: seq<Entry>)
    requires f.Valid()
    ensures |entries| == |keys| && forall i :: 0 <= i < |keys| ==> entries[i] == EntryOf(f, keys[i])
  {
    if keys == [] then [] else EntriesOf(f, keys[..|keys| - 1]) + [EntryOf(f, keys[|keys| - 1])]
  }

  function KeysIn(entries: seq<Entry>): (keys: seq<Key>)
    ensures |keys| == |entries| && forall i :: 0 <= i < |entries| ==> keys[i] == entries[i].key
  {
    seq(|entries|, i requires 0 <= i < |entries| => entries[i].key)
  }

  /** Every key of either list once, none standing before one that precedes it. */
  ghost predicate IsRanking(f: Fusion, ranking: seq<Key>)
    requires f.Valid()
  {
    && Distinct(ranking)
    && (forall key :: key in ranking <==> f.VectorRank(key) > 0 || f.LexicalRank(key) > 0)
    && (forall i, j :: 0 <= i < j < |ranking| ==> !f.Precedes(ranking[j], ranking[i]))
  }

  lemma ChannelsHoldKeys(f: Fusion, key: Key)
    ensures key in f.Keys() <==> f.VectorRank(key) > 0 || f.LexicalRank(key) > 0
  {
    KeysAreRanked(f.Both(), f.norm);
    RankFindsFirst(key, f.Both(), f.norm);
    RankFindsFirst(key, f.vector, f.norm);
    RankFindsFirst(key, f.lexical, f.norm);
    assert forall i :: 0 <= i < |f.vector| ==> f.vector[i] == f.Both()[i];
    assert forall i :: 0 <= i < |f.lexical| ==> f.lexical[i] == f.Both()[|f.vector| + i];
  }

  lemma SortRanks(f: Fusion, keyBefore: (Key, Key) -> bool)
    requires f.Valid()
    ensures var sorted := Sorted(EntriesOf(f, f.Keys()), Comparison(keyBefore));
            && IsRanking(f, KeysIn(sorted))
            && forall i :: 0 <= i < |sorted| ==> sorted[i] == EntryOf(f, sorted[i].key)
  {
    var entries := EntriesOf(f, f.Keys());
    var before := Comparison(keyBefore);
    var sorted := Sorted(entries, before);
    var ranking := KeysIn(sorted);
    KeysAreRanked(f.Both(), f.norm);
    ComparisonRespectsOrder(keyBefore);
    SortedOrders(entries, before, NO_LATER);
    SortedPermutes(entries, before);
    SortedStaysDistinct(entries, before);
    forall i | 0 <= i < |sorted|
      ensures sorted[i] == EntryOf(f, sorted[i].key) && sorted[i].key in f.Keys()
    {
      assert sorted[i] in entries;
    }
    forall i, j | 0 <= i < j < |ranking|
      ensures !f.Precedes(ranking[j], ranking[i]) && ranking[i] != ranking[j]
    {
      assert NO_LATER(sorted[i], sorted[j]);
      assert sorted[i] != sorted[j];
    }
    forall key
      ensures key in ranking <==> f.VectorRank(key) > 0 || f.LexicalRank(key) > 0
    {
      ChannelsHoldKeys(f, key);
      if key in f.Keys() {
        assert EntryOf(f, key) in entries;
        var i :| 0 <= i < |sorted| && sorted[i] == EntryOf(f, key);
        assert ranking[i] == key;
      }
    }
  }

  // ---------------------------------------------------------------------------------------
  // The fused list.

  /** The last result with this key. */
  function LastOf(key: Key, results: seq<SearchResult>, norm: string -> string): Option<SearchResult> {
    if results == [] then None
    else
      var last := results[|results| - 1];
      if ResultKey(last, norm) == key then Some(last) else LastOf(key, results[..|results| - 1], norm)
  }

  function RankValue(rank: nat): Json { if rank == 0 then JNull else JInt(rank) }

  /** The metadata that fusion writes over a result's own. */
  function Annotations(f: Fusion, key: Key): Metadata
    requires f.Valid()
  {
    var lexical := LastOf(key, f.lexical, f.norm);
    map["retrieval_strategy" := JString("hybrid_rrf"),
        "score_semantics" := JString("relevance"),
        "rrf_score" := JFloat(f.Score(key)),
        "vector_rank" := RankValue(f.VectorRank(key)),
        "bm25_rank" := RankValue(f.LexicalRank(key)),
        "bm25_score" := if lexical.Some? then Field(lexical.value.metadata, "bm25_score") else JNull,
        "lexical_weight" := JFloat(f.lexicalWeight)]
  }

  /** The record of a key, its score made relative to the best possible one. */
  function Fused(f: Fusion, key: Key): (result: SearchResult)
    requires f.Valid() && Rank(key, f.Both(), f.norm) > 0
  {
    var record := First(key, f.Both(), f.norm);
    record.(score := f.Score(key) / f.MaximumScore(), metadata := record.metadata + Annotations(f, key))
  }

  ghost predicate LastsOf(byKey: map<Key, SearchResult>, results: seq<SearchResult>, norm: string -> string) {
    forall key :: Lookup(byKey, key) == LastOf(key, results, norm)
  }

  lemma LastsGrow(byKey: map<Key, SearchResult>, results: seq<SearchResult>, result: SearchResult, norm: string -> string)
    requires LastsOf(byKey, results, norm)
    ensures LastsOf(byKey[ResultKey(result, norm) := result], results + [result], norm)
  {
    var key := ResultKey(result, norm);
    forall k
      ensures Lookup(byKey[key := result], k) == LastOf(k, results + [result], norm)
    {
      assert Lookup(byKey, k) == LastOf(k, results, norm);
      assert (results + [result])[..|results|] == results;
    }
  }

  method IndexByKey(results: seq<SearchResult>, norm: string -> string) returns (byKey: map<Key, SearchResult>)
    ensures LastsOf(byKey, results, norm)
  {
    byKey := map[];
    for i := 0 to |results|
      invariant LastsOf(byKey, results[..i], norm)
    {
      PrefixStep([], results, i);
      LastsGrow(byKey, results[..i], results[i], norm);
      byKey := byKey[ResultKey(results[i], norm) := results[i]];
    }
    assert results[..|results|] == results;
  }

  function RankIn(ranks: map<Key, nat>, key: Key, missing: nat): nat { if key in ranks then ranks[key] else missing }

  /** The sort's input, read off the tables. */
  method BuildEntries(f: Fusion, keys: seq<Key>, scores: map<Key, real>, vectorRanks: map<Key, nat>, lexicalRanks: map<Key, nat>)
    returns (entries: seq<Entry>)
    requires f.Valid() && keys == f.Keys()
    requires forall key :: ScoreIn(scores, key) == f.Score(key)
    requires RanksOf(vectorRanks, f.vector, f.norm) && RanksOf(lexicalRanks, f.lexical, f.norm)
    ensures entries == EntriesOf(f, keys)
  {
    entries := [];
    var missing := |keys| + 1;
    for i := 0 to |keys|
      invariant |entries| == i && forall j :: 0 <= j < i ==> entries[j] == EntryOf(f, keys[j])
    {
      var key := keys[i];
      assert Lookup(vectorRanks, key) == RankOf(key, f.vector, f.norm);
      assert Lookup(lexicalRanks, key) == RankOf(key, f.lexical, f.norm);
      entries := entries + [Entry(key, ScoreIn(scores, key), RankIn(vectorRanks, key, missing), RankIn(lexicalRanks, key, missing))];
    }
  }

  function RankValueIn(ranks: map<Key, nat>, key: Key): Json { if key in ranks then JInt(ranks[key]) else JNull }

  /** The fused record of one key, read off the tables. */
  method BuildResult(f: Fusion, key: Key, records: map<Key, SearchResult>, scores: map<Key, real>, vectorRanks: map<Key, nat>,
                     lexicalRanks: map<Key, nat>, lexicalByKey: map<Key, SearchResult>)
    returns (result: SearchResult)
    requires f.Valid() && Rank(key, f.Both(), f.norm) > 0
    requires RecordsOf(records, f.Both(), f.norm) && LastsOf(lexicalByKey, f.lexical, f.norm)
    requires ScoreIn(scores, key) == f.Score(key)
    requires RanksOf(vectorRanks, f.vector, f.norm) && RanksOf(lexicalRanks, f.lexical, f.norm)
    ensures result == Fused(f, key)
  {
    assert Lookup(records, key) == FirstOf(key, f.Both(), f.norm);
    assert Lookup(lexicalByKey, key) == LastOf(key, f.lexical, f.norm);
    assert Lookup(vectorRanks, key) == RankOf(key, f.vector, f.norm);
    assert Lookup(lexicalRanks, key) == RankOf(key, f.lexical, f.norm);
    var record := records[key];
    var metadata := record.metadata + map[
      "retrieval_strategy" := JString("hybrid_rrf"),
      "score_semantics" := JString("relevance"),
      "rrf_score" := JFloat(ScoreIn(scores, key)),
      "vector_rank" := RankValueIn(vectorRanks, key),
      "bm25_rank" := RankValueIn(lexicalRanks, key),
      "bm25_score" := if key in lexicalByKey then Field(lexicalByKey[key].metadata, "bm25_score") else JNull,
      "lexical_weight" := JFloat(f.lexicalWeight)];
    result := SearchResult(record.documentId, record.chunkId, ScoreIn(scores, key) / f.MaximumScore(), record.content, metadata);
  }

  /** The first `topK` of the ranking, each with its fused record. */
  ghost predicate IsFusion(f: Fusion, fused: seq<SearchResult>, ranking: seq<Key>, topK: nat)
    requires f.Valid()
  {
    && IsRanking(f, ranking)
    && |fused| == (if topK < |ranking| then topK else |ranking|)
    && forall i :: 0 <= i < |fused| ==> Rank(ranking[i], f.Both(), f.norm) > 0 && fused[i] == Fused(f, ranking[i])
  }

  /** The records of the first keys of a ranking, read off the tables. */
  method BuildFused(f: Fusion, ordered: seq<Key>, topK: nat, records: map<Key, SearchResult>, scores: map<Key, real>,
                    vectorRanks: map<Key, nat>, lexicalRanks: map<Key, nat>, lexicalByKey: map<Key, SearchResult>)
    returns (fused: seq<SearchResult>)
    requires f.Valid() && IsRanking(f, ordered)
    requires RecordsOf(records, f.Both(), f.norm) && LastsOf(lexicalByKey, f.lexical, f.norm)
    requires forall key :: ScoreIn(scores, key) == f.Score(key)
    requires RanksOf(vectorRanks, f.vector, f.norm) && RanksOf(lexicalRanks, f.lexical, f.norm)
    ensures IsFusion(f, fused, ordered, topK)
  {
    fused := [];
    var count := if topK < |ordered| then topK else |ordered|;
    for i := 0 to count
      invariant |fused| == i
      invariant forall j :: 0 <= j < i ==> Rank(ordered[j], f.Both(), f.norm) > 0 && fused[j] == Fused(f, ordered[j])
    {
      var key := ordered[i];
      RankedKeyHasRecord(f, key);
      assert key in ordered;
      var result := BuildResult(f, key, records, scores, vectorRanks, lexicalRanks, lexicalByKey);
      fused := fused + [result];
    }
  }

  method ReciprocalRankFusion(f: Fusion, topK: nat, keyBefore: (Key, Key) -> bool)
    returns (fused: seq<SearchResult>, ghost ranking: seq<Key>)
    requires f.Valid()
    ensures IsFusion(f, fused, ranking, topK)
    ensures exists order :: IsFusion(f, fused, order, topK)
  {
    var records, keys, scores, vectorRanks :=
      AddChannel(map[], [], map[], [], f.vector, Shares(f.vectorWeight, f.rrfK), f.norm);
    var lexicalRanks;
    assert [] + f.vector == f.vector;
    records, keys, scores, lexicalRanks :=
      AddChannel(records, keys, scores, f.vector, f.lexical, Shares(f.lexicalWeight, f.rrfK), f.norm);
    var entries := BuildEntries(f, keys, scores, vectorRanks, lexicalRanks);
    var ordered := KeysIn(Sorted(entries, Comparison(keyBefore)));
    SortRanks(f, keyBefore);
    var lexicalByKey := IndexByKey(f.lexical, f.norm);
    fused := BuildFused(f, ordered, topK, records, scores, vectorRanks, lexicalRanks, lexicalByKey);
    ranking := ordered;
  }

  lemma RankedKeyHasRecord(f: Fusion, key: Key)
    ensures Rank(key, f.Both(), f.norm) > 0 <==> f.VectorRank(key) > 0 || f.LexicalRank(key) > 0
  {
    ChannelsHoldKeys(f, key);
    KeysAreRanked(f.Both(), f.norm);
  }

  // ---------------------------------------------------------------------------------------
  // What fusing two lists with distinct keys promises.

  predicate Ahead(a: nat, b: nat) { a > 0 && (b == 0 || a < b) }

  /** No worse in either channel and strictly better in one; an absent rank is the worst. */
  predicate Dominates(f: Fusion, a: Key, b: Key) {
    && (f.VectorRank(a) == f.VectorRank(b) || Ahead(f.VectorRank(a), f.VectorRank(b)))
    && (f.LexicalRank(a) == f.LexicalRank(b) || Ahead(f.LexicalRank(a), f.LexicalRank(b)))
    && (f.VectorRank(a) != f.VectorRank(b) || f.LexicalRank(a) != f.LexicalRank(b))
  }

  ghost predicate DistinctLists(f: Fusion) { DistinctKeys(f.vector, f.norm) && DistinctKeys(f.lexical, f.norm) }

  /** A share is never negative, and falls with the rank. */
  lemma SharesFall(weight: real, rrfK: nat, a: nat, b: nat)
    requires weight >= 0.0 && rrfK >= 1 && 1 <= a <= b
    ensures 0.0 <= Shares(weight, rrfK)(b) <= Shares(weight, rrfK)(a)
  {
    QuotientFalls(weight, (rrfK + a) as real, (rrfK + b) as real);
  }

  lemma ProductSign(p: real, b: real)
    requires b > 0.0 && p * b >= 0.0
    ensures p >= 0.0
  {
  }

  lemma QuotientFalls(w: real, a: real, b: real)
    requires w >= 0.0 && 0.0 < a <= b
    ensures 0.0 <= w / b <= w / a
  {
    var x, y := w / a, w / b;
    assert x * a == w && y * b == w;
    ProductSign(x, a);
    ProductSign(y, b);
    assert x * (b - a) >= 0.0;
    assert (x - y) * b == x * (b - a);
    ProductSign(x - y, b);
  }

  lemma {:induction false} DistinctFitIn<T>(xs: seq<T>, ys: seq<T>)
    requires Distinct(xs) && forall x :: x in xs ==> x in ys
    ensures |xs| <= |ys|
  {
    if xs != [] {
      var last := |xs| - 1;
      assert xs[last] in xs;
      var i :| 0 <= i < |ys| && ys[i] == xs[last];
      var rest := ys[..i] + ys[i + 1..];
      forall x | x in xs[..last]
        ensures x in rest
      {
        assert x in xs;
        var j :| 0 <= j < |ys| && ys[j] == x;
        assert x != xs[last];
        assert if j < i then rest[j] == x else rest[j - 1] == x;
      }
      DistinctFitIn(xs[..last], rest);
    }
  }

  /** In a fusion of lists with distinct keys no rank exceeds the number of keys. */
  lemma RanksFit(f: Fusion)
    requires DistinctLists(f)
    ensures |f.vector| <= |f.Keys()| && |f.lexical| <= |f.Keys()|
  {
    ListFits(f, f.vector);
    ListFits(f, f.lexical);
  }

  lemma ListFits(f: Fusion, results: seq<SearchResult>)
    requires DistinctKeys(results, f.norm) && (results == f.vector || results == f.lexical)
    ensures |results| <= |f.Keys()|
  {
    var own := seq(|results|, i requires 0 <= i < |results| => ResultKey(results[i], f.norm));
    forall key | key in own
      ensures key in f.Keys()
    {
      ChannelsHoldKeys(f, key);
      RankFindsFirst(key, results, f.norm);
    }
    DistinctFitIn(own, f.Keys());
  }

  /** A key's score is the sum of its two shares, an absent one counting nothing. */
  lemma ScoreIsSumOfShares(f: Fusion, key: Key)
    requires f.Valid() && DistinctLists(f)
    ensures f.Score(key)
         == (if f.VectorRank(key) == 0 then 0.0 else Shares(f.vectorWeight, f.rrfK)(f.VectorRank(key)))
            + (if f.LexicalRank(key) == 0 then 0.0 else Shares(f.lexicalWeight, f.rrfK)(f.LexicalRank(key)))
  {
    ContributionAtRank(key, f.vector, Shares(f.vectorWeight, f.rrfK), f.norm);
    ContributionAtRank(key, f.lexical, Shares(f.lexicalWeight, f.rrfK), f.norm);
  }

  lemma ShareRange(weight: real, rrfK: nat, rank: nat)
    requires weight >= 0.0 && rrfK >= 1
    ensures rank > 0 ==> 0.0 <= Shares(weight, rrfK)(rank) <= Shares(weight, rrfK)(1)
    ensures 0.0 <= Shares(weight, rrfK)(1)
  {
    SharesFall(weight, rrfK, 1, 1);
    if rank > 0 {
      SharesFall(weight, rrfK, 1, rank);
    }
  }

  lemma SumOverDivisor(a: real, b: real, d: real)
    requires d > 0.0
    ensures (a + b) / d == a / d + b / d
  {
  }

  lemma RatioRange(s: real, max: real)
    requires 0.0 <= s <= max && max > 0.0
    ensures 0.0 <= s / max <= 1.0
  {
    QuotientFalls(s, max, max);
    var q := s / max;
    assert q * max == s;
  }

  /** Every fused score lies between 0 and 1. */
  lemma FusedScoresAreRelative(f: Fusion, key: Key)
    requires f.Valid() && DistinctLists(f) && Rank(key, f.Both(), f.norm) > 0
    ensures 0.0 <= Fused(f, key).score <= 1.0
  {
    ScoreIsSumOfShares(f, key);
    ShareRange(f.vectorWeight, f.rrfK, f.VectorRank(key));
    ShareRange(f.lexicalWeight, f.rrfK, f.LexicalRank(key));
    SumOverDivisor(f.vectorWeight, f.lexicalWeight, (f.rrfK + 1) as real);
    assert f.MaximumScore() == Shares(f.vectorWeight, f.rrfK)(1) + Shares(f.lexicalWeight, f.rrfK)(1);
    RatioRange(f.Score(key), f.MaximumScore());
  }

  /** A share as the source computes it. */
  lemma ShareIs(weight: real, rrfK: nat, rank: nat)
    requires rrfK >= 1
    ensures Shares(weight, rrfK)(rank) == weight / (rrfK + rank) as real
  {
  }

  /** The result, apart from score and metadata, is this one. */
  predicate SameRecord(a: SearchResult, b: SearchResult) {
    a.documentId == b.documentId && a.chunkId == b.chunkId && a.content == b.content
  }

  lemma {:induction false} LastIsOnly(key: Key, results: seq<SearchResult>, norm: string -> string)
    requires DistinctKeys(results, norm)
    ensures var rank := Rank(key, results, norm);
            LastOf(key, results, norm) == if rank > 0 then Some(results[rank - 1]) else None
  {
    if results != [] {
      var last := |results| - 1;
      LastIsOnly(key, results[..last], norm);
      RankFindsFirst(key, results[..last], norm);
    }
  }

  lemma {:induction false} RankInBoth(key: Key, a: seq<SearchResult>, b: seq<SearchResult>, norm: string -> string)
    ensures Rank(key, a + b, norm)
         == if Rank(key, a, norm) > 0 then Rank(key, a, norm) else if Rank(key, b, norm) > 0 then |a| + Rank(key, b, norm) else 0
    decreases |b|
  {
    if b == [] {
      assert a + b == a;
    } else {
      var last := |b| - 1;
      assert (a + b)[..|a| + last] == a + b[..last] && (a + b)[|a| + last] == b[last];
      RankInBoth(key, a, b[..last], norm);
    }
  }

  /** A fused result is the vector channel's record if that has one, else the lexical one's. */
  lemma FusedRecordIs(f: Fusion, key: Key)
    requires f.Valid() && DistinctLists(f) && Rank(key, f.Both(), f.norm) > 0
    ensures var v, l := f.VectorRank(key), f.LexicalRank(key);
            (v > 0 || l > 0) && SameRecord(Fused(f, key), if v > 0 then f.vector[v - 1] else f.lexical[l - 1])
  {
    RankInBoth(key, f.vector, f.lexical, f.norm);
  }

  /** The weighted reciprocal ranks of a key. */
  lemma ScoreIs(f: Fusion, key: Key)
    requires f.Valid() && DistinctLists(f)
    ensures var v, l := f.VectorRank(key), f.LexicalRank(key);
            f.Score(key) == (if v > 0 then f.vectorWeight / (f.rrfK + v) as real else 0.0)
                            + if l > 0 then f.lexicalWeight / (f.rrfK + l) as real else 0.0
  {
    ScoreIsSumOfShares(f, key);
    ShareIs(f.vectorWeight, f.rrfK, f.VectorRank(key));
    ShareIs(f.lexicalWeight, f.rrfK, f.LexicalRank(key));
  }

  /** A fused result's score: relative to that of two first places. */
  lemma FusedScoreIs(f: Fusion, key: Key)
    requires f.Valid() && DistinctLists(f) && Rank(key, f.Both(), f.norm) > 0
    ensures Fused(f, key).score == f.Score(key) / ((f.vectorWeight + f.lexicalWeight) / (f.rrfK + 1) as real)
  {
  }

  /** What fusion writes into the metadata. */
  lemma FusedMetadataIs(f: Fusion, key: Key)
    requires f.Valid() && DistinctLists(f) && Rank(key, f.Both(), f.norm) > 0
    ensures var v, l := f.VectorRank(key), f.LexicalRank(key);
            (v > 0 || l > 0)
            && Fused(f, key).metadata
               == (if v > 0 then f.vector[v - 1] else f.lexical[l - 1]).metadata
                  + map["retrieval_strategy" := JString("hybrid_rrf"), "score_semantics" := JString("relevance"),
                        "rrf_score" := JFloat(f.Score(key)),
                        "vector_rank" := if v > 0 then JInt(v) else JNull,
                        "bm25_rank" := if l > 0 then JInt(l) else JNull,
                        "bm25_score" := if l > 0 then Field(f.lexical[l - 1].metadata, "bm25_score") else JNull,
                        "lexical_weight" := JFloat(f.lexicalWeight)]
  {
    RankInBoth(key, f.vector, f.lexical, f.norm);
    LastIsOnly(key, f.lexical, f.norm);
  }

  /** The order of the fused list: by score, then by vector rank, then by lexical rank, an absent rank last. */
  lemma RankingMeans(f: Fusion, ranking: seq<Key>, i: nat, j: nat)
    requires f.Valid() && DistinctLists(f) && IsRanking(f, ranking) && i < j < |ranking|
    ensures var a, b := ranking[i], ranking[j];
            || f.Score(a) > f.Score(b)
            || (f.Score(a) == f.Score(b)
                && (|| Ahead(f.VectorRank(a), f.VectorRank(b))
                    || (f.VectorRank(a) == f.VectorRank(b) && Ahead(f.LexicalRank(a), f.LexicalRank(b)))))
  {
    RanksFit(f);
    ScoresAndRanksSettleTheOrder(f, ranking, i, j);
    assert ranking[i] in ranking && ranking[j] in ranking;
  }

  lemma ChannelFavours(weight: real, rrfK: nat, a: nat, b: nat)
    requires weight >= 0.0 && rrfK >= 1 && (a == b || Ahead(a, b))
    ensures (if b == 0 then 0.0 else Shares(weight, rrfK)(b)) <= (if a == 0 then 0.0 else Shares(weight, rrfK)(a))
  {
    if a > 0 {
      ShareRange(weight, rrfK, a);
      if b > 0 {
        SharesFall(weight, rrfK, a, b);
      }
    }
  }

  lemma DominatingKeyPrecedes(f: Fusion, a: Key, b: Key)
    requires f.Valid() && DistinctLists(f) && Dominates(f, a, b)
    ensures f.Precedes(a, b)
  {
    ScoreIsSumOfShares(f, a);
    ScoreIsSumOfShares(f, b);
    ChannelFavours(f.vectorWeight, f.rrfK, f.VectorRank(a), f.VectorRank(b));
    ChannelFavours(f.lexicalWeight, f.rrfK, f.LexicalRank(a), f.LexicalRank(b));
    RanksFit(f);
  }

  /** A result ranked no worse in both channels and better in one comes first, whatever the weights. */
  lemma DominatingResultComesFirst(f: Fusion, ranking: seq<Key>, i: nat, j: nat)
    requires f.Valid() && DistinctLists(f) && IsRanking(f, ranking)
    requires i < |ranking| && j < |ranking| && Dominates(f, ranking[i], ranking[j])
    ensures i < j
  {
    DominatingKeyPrecedes(f, ranking[i], ranking[j]);
  }

  lemma PrecedesIsTotal(f: Fusion, a: Key, b: Key)
    requires f.Valid() && DistinctLists(f) && a in f.Keys() && b in f.Keys() && a != b
    ensures f.Precedes(a, b) || f.Precedes(b, a)
  {
    RanksFit(f);
    ChannelsHoldKeys(f, a);
    ChannelsHoldKeys(f, b);
    RankFindsFirst(a, f.vector, f.norm);
    RankFindsFirst(b, f.vector, f.norm);
    RankFindsFirst(a, f.lexical, f.norm);
    RankFindsFirst(b, f.lexical, f.norm);
  }

  /** Scores and ranks alone settle the order; the comparison of keys is never reached. */
  lemma ScoresAndRanksSettleTheOrder(f: Fusion, ranking: seq<Key>, i: nat, j: nat)
    requires f.Valid() && DistinctLists(f) && IsRanking(f, ranking) && i < j < |ranking|
    ensures f.Precedes(ranking[i], ranking[j])
  {
    assert ranking[i] in ranking && ranking[j] in ranking;
    ChannelsHoldKeys(f, ranking[i]);
    ChannelsHoldKeys(f, ranking[j]);
    PrecedesIsTotal(f, ranking[i], ranking[j]);
  }

  lemma {:induction false} RankingsAgree(f: Fusion, r1: seq<Key>, r2: seq<Key>, n: nat)
    requires f.Valid() && DistinctLists(f) && IsRanking(f, r1) && IsRanking(f, r2)
    requires n <= |r1| && n <= |r2|
    ensures forall i :: 0 <= i < n ==> r1[i] == r2[i]
  {
    if n > 0 {
      var k := n - 1;
      RankingsAgree(f, r1, r2, k);
      assert r1[k] in r1 && r2[k] in r2;
      var m2 :| 0 <= m2 < |r2| && r2[m2] == r1[k];
      var m1 :| 0 <= m1 < |r1| && r1[m1] == r2[k];
      if k < m1 {
        SameOrder(f, r1, r2, k, m1, m2);
      }
      assert r1[k] == r2[k];
    }
  }

  /** Two keys stand in the same order in both rankings. */
  lemma SameOrder(f: Fusion, r1: seq<Key>, r2: seq<Key>, k: nat, m1: nat, m2: nat)
    requires f.Valid() && DistinctLists(f) && IsRanking(f, r1) && IsRanking(f, r2)
    requires k < m1 < |r1| && k < |r2| && m2 < |r2| && r1[m1] == r2[k] && r2[m2] == r1[k]
    ensures m2 <= k
  {
    ScoresAndRanksSettleTheOrder(f, r1, k, m1);
    if m2 > k {
      ScoresAndRanksSettleTheOrder(f, r2, k, m2);
    }
  }

  /** The fusion of two lists with distinct keys is one fixed list. */
  lemma FusionIsDeterministic(f: Fusion, fused1: seq<SearchResult>, r1: seq<Key>, fused2: seq<SearchResult>, r2: seq<Key>, topK: nat)
    requires f.Valid() && DistinctLists(f)
    requires IsFusion(f, fused1, r1, topK) && IsFusion(f, fused2, r2, topK)
    ensures fused1 == fused2
  {
    DistinctFitIn(r1, r2);
    DistinctFitIn(r2, r1);
    RankingsAgree(f, r1, r2, |r1|);
    assert r1 == r2;
  }

  lemma FusedKeepsKey(f: Fusion, key: Key)
    requires f.Valid() && Rank(key, f.Both(), f.norm) > 0
    ensures ResultKey(Fused(f, key), f.norm) == key
  {
    RankFindsFirst(key, f.Both(), f.norm);
  }

  /** The fused list: at most `topK` results, distinct keys, scores in [0, 1] that never rise. */
  lemma FusionIsSound(f: Fusion, fused: seq<SearchResult>, ranking: seq<Key>, topK: nat)
    requires f.Valid() && DistinctLists(f) && IsFusion(f, fused, ranking, topK)
    ensures |fused| <= topK && DistinctKeys(fused, f.norm)
    ensures forall r :: r in fused ==> 0.0 <= r.score <= 1.0
    ensures forall i, j :: 0 <= i < j < |fused| ==> fused[i].score >= fused[j].score
  {
    forall i | 0 <= i < |fused|
      ensures ResultKey(fused[i], f.norm) == ranking[i] && 0.0 <= fused[i].score <= 1.0
    {
      FusedKeepsKey(f, ranking[i]);
      FusedScoresAreRelative(f, ranking[i]);
    }
    forall i, j | 0 <= i < j < |fused|
      ensures fused[i].score >= fused[j].score
    {
      assert !f.Precedes(ranking[j], ranking[i]);
      QuotientOrder(f.Score(ranking[j]), f.Score(ranking[i]), f.MaximumScore());
    }
  }

  lemma QuotientOrder(a: real, b: real, d: real)
    requires a <= b && d > 0.0
    ensures a / d <= b / d
  {
  }
}
