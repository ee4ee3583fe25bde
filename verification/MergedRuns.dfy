/** What merging makes of a page's chunks: consecutive runs, each the distinct paragraphs of its chunks, and how long that is. */
module MergedRuns {
  import opened Text
  import opened BlockChunker
  import opened ChunkMerger

  // ---------------------------------------------------------------------------------------
  // Collecting.

  lemma {:induction false} CollectMore(before: seq<string>, a: seq<string>, b: seq<string>, norm: string -> string)
    ensures Collect(before, a + b, norm) == Collect(Collect(before, a, norm), b, norm)
    decreases |b|
  {
    if b == [] {
      assert a + b == a;
    } else {
      var last := |b| - 1;
      assert (a + b)[..|a| + last] == a + b[..last] && (a + b)[|a| + last] == b[last];
      CollectMore(before, a, b[..last], norm);
    }
  }

  lemma {:induction false} CollectKeys(before: seq<string>, parts: seq<string>, norm: string -> string)
    requires IsNormalizer(norm)
    ensures KeysOf(Collect(before, parts, norm), norm) == KeysOf(before, norm) + KeysOf(parts, norm)
  {
    if parts != [] {
      var last := |parts| - 1;
      var sofar := Collect(before, parts[..last], norm);
      CollectKeys(before, parts[..last], norm);
      assert parts[..last] + [parts[last]] == parts;
      KeysSnoc(parts[..last], parts[last], norm);
      KeysSnoc(sofar, Strip(parts[last]), norm);
    }
  }

  lemma StripTwice(p: string)
    ensures Strip(Strip(p)) == Strip(p)
  {
    var lo, hi := StripCuts(p);
    TrimmedStripsToItself(Strip(p));
  }

  /** Collecting the distinct paragraphs gives what collecting all of them gives. */
  lemma {:induction false} CollectDistinct(before: seq<string>, parts: seq<string>, norm: string -> string)
    requires IsNormalizer(norm)
    ensures Collect(before, Collect([], parts, norm), norm) == Collect(before, parts, norm)
  {
    if parts != [] {
      var last, q := |parts| - 1, parts[|parts| - 1];
      var distinct := Collect([], parts[..last], norm);
      CollectDistinct(before, parts[..last], norm);
      CollectKeys([], parts[..last], norm);
      CollectKeys(before, parts[..last], norm);
      if norm(q) != [] && norm(q) !in KeysOf(distinct, norm) {
        assert (distinct + [Strip(q)])[..|distinct|] == distinct;
        StripTwice(q);
      }
    }
  }

  /** All of them are paragraphs, none blank, no two with one key. */
  ghost predicate Distinct(paragraphs: seq<string>, norm: string -> string) {
    Collected(paragraphs, KeysOf(paragraphs, norm), norm)
  }

  lemma {:induction false} CollectIsDistinct(parts: seq<string>, norm: string -> string)
    requires IsNormalizer(norm) && forall p :: p in parts ==> NoBreak(p)
    ensures Distinct(Collect([], parts, norm), norm)
  {
    if parts != [] {
      var last := |parts| - 1;
      var sofar := Collect([], parts[..last], norm);
      CollectIsDistinct(parts[..last], norm);
      var q := parts[last];
      if norm(q) != [] && norm(q) !in KeysOf(sofar, norm) {
        StrippedIsParagraph(q, norm);
        CollectOne(sofar, KeysOf(sofar, norm), Strip(q), norm);
      }
    }
  }

  lemma SplitIsRecollected(paragraphs: seq<string>, norm: string -> string)
    requires IsNormalizer(norm) && Distinct(paragraphs, norm)
    ensures Collect([], Split(Join(paragraphs)), norm) == Collect([], paragraphs, norm)
  {
    if paragraphs == [] {
      var blank: seq<string> := [[]];
      assert Split([]) == blank && blank[..0] == [];
    } else {
      SplitJoin(paragraphs);
    }
  }

  // ---------------------------------------------------------------------------------------
  // The text of a run.

  /** The paragraphs of all the chunks, in order. */
  function AllParts(chunks: seq<DocumentChunk>): seq<string> {
    if chunks == [] then [] else AllParts(chunks[..|chunks| - 1]) + Split(chunks[|chunks| - 1].text)
  }

  lemma {:induction false} AllPartsOfBoth(a: seq<DocumentChunk>, b: seq<DocumentChunk>)
    ensures AllParts(a + b) == AllParts(a) + AllParts(b)
    decreases |b|
  {
    if b == [] {
      assert a + b == a;
    } else {
      var last := |b| - 1;
      assert (a + b)[..|a| + last] == a + b[..last] && (a + b)[|a| + last] == b[last];
      AllPartsOfBoth(a, b[..last]);
    }
  }

  lemma {:induction false} AllPartsHaveNoBreak(chunks: seq<DocumentChunk>)
    ensures forall p :: p in AllParts(chunks) ==> NoBreak(p)
  {
    if chunks != [] {
      AllPartsHaveNoBreak(chunks[..|chunks| - 1]);
      SplitPartsHaveNoBreak(chunks[|chunks| - 1].text);
    }
  }

  /** Of all paragraphs of the chunks, the first with each key. */
  function DistinctParagraphs(chunks: seq<DocumentChunk>, norm: string -> string): seq<string> {
    Collect([], AllParts(chunks), norm)
  }

  /** A run of one is its chunk; a longer one is the distinct paragraphs of its chunks, joined. */
  ghost predicate IsRun(run: Run, chunks: seq<DocumentChunk>, norm: string -> string) {
    && run.lo < run.hi <= |chunks|
    && if run.hi == run.lo + 1 then run.chunk == chunks[run.lo]
       else run.chunk.text == Join(DistinctParagraphs(chunks[run.lo..run.hi], norm))
  }

  lemma RunRecollects(run: Run, chunks: seq<DocumentChunk>, norm: string -> string)
    requires IsNormalizer(norm) && IsRun(run, chunks, norm)
    ensures Collect([], Split(run.chunk.text), norm) == DistinctParagraphs(chunks[run.lo..run.hi], norm)
  {
    var own := chunks[run.lo..run.hi];
    if run.hi == run.lo + 1 {
      assert own[..0] == [] && own[0] == chunks[run.lo] && |own| == 1;
      assert AllParts(own) == [] + Split(own[0].text) == Split(own[0].text);
    } else {
      AllPartsHaveNoBreak(own);
      CollectIsDistinct(AllParts(own), norm);
      SplitIsRecollected(DistinctParagraphs(own, norm), norm);
      CollectDistinct([], AllParts(own), norm);
    }
  }

  /** Two adjacent runs merge into one. */
  lemma BothIsRun(a: Run, b: Run, chunks: seq<DocumentChunk>, norm: string -> string)
    requires IsNormalizer(norm) && IsRun(a, chunks, norm) && IsRun(b, chunks, norm) && a.hi == b.lo
    ensures IsRun(Both(a, b, norm), chunks, norm)
  {
    var first, second := chunks[a.lo..a.hi], chunks[b.lo..b.hi];
    assert chunks[a.lo..b.hi] == first + second;
    AllPartsOfBoth(first, second);
    RunRecollects(a, chunks, norm);
    RunRecollects(b, chunks, norm);
    var sofar := DistinctParagraphs(first, norm);
    CollectDistinct(sofar, Split(b.chunk.text), norm);
    CollectDistinct(sofar, AllParts(second), norm);
    CollectMore([], AllParts(first), AllParts(second), norm);
  }

  // ---------------------------------------------------------------------------------------
  // The runs divide the page.

  /** Consecutive runs from `lo` to `hi`. */
  ghost predicate Chain(runs: seq<Run>, lo: nat, hi: nat, chunks: seq<DocumentChunk>, norm: string -> string) {
    if runs == [] then lo == hi
    else runs[0].lo == lo && IsRun(runs[0], chunks, norm) && Chain(runs[1..], runs[0].hi, hi, chunks, norm)
  }

  lemma {:induction false} ChainOfTwo(a: seq<Run>, b: seq<Run>, lo: nat, mid: nat, hi: nat, chunks: seq<DocumentChunk>, norm: string -> string)
    requires Chain(a, lo, mid, chunks, norm) && Chain(b, mid, hi, chunks, norm)
    ensures Chain(a + b, lo, hi, chunks, norm)
    decreases |a|
  {
    if a == [] {
      assert a + b == b;
    } else {
      var both := a + b;
      assert both[0] == a[0] && both[1..] == a[1..] + b;
      ChainOfTwo(a[1..], b, a[0].hi, mid, hi, chunks, norm);
      assert Chain(both[1..], both[0].hi, hi, chunks, norm);
    }
  }

  lemma {:induction false} ChainParts(runs: seq<Run>, k: nat, lo: nat, hi: nat, chunks: seq<DocumentChunk>, norm: string -> string) returns (mid: nat)
    requires k <= |runs| && Chain(runs, lo, hi, chunks, norm)
    ensures Chain(runs[..k], lo, mid, chunks, norm) && Chain(runs[k..], mid, hi, chunks, norm)
    decreases k
  {
    if k == 0 {
      mid := lo;
      assert runs[0..] == runs;
    } else {
      mid := ChainParts(runs[1..], k - 1, runs[0].hi, hi, chunks, norm);
      assert runs[..k][1..] == runs[1..][..k - 1] && runs[1..][k - 1..] == runs[k..];
    }
  }

  lemma {:induction false} ChainHolds(runs: seq<Run>, k: nat, lo: nat, hi: nat, chunks: seq<DocumentChunk>, norm: string -> string)
    requires k < |runs| && Chain(runs, lo, hi, chunks, norm)
    ensures IsRun(runs[k], chunks, norm)
    decreases k
  {
    if k > 0 {
      ChainHolds(runs[1..], k - 1, runs[0].hi, hi, chunks, norm);
    }
  }

  lemma {:induction false} SinglesChain(chunks: seq<DocumentChunk>, from: nat, norm: string -> string)
    requires from <= |chunks|
    ensures Chain(Singles(chunks)[from..], from, |chunks|, chunks, norm)
    decreases |chunks| - from
  {
    if from < |chunks| {
      var runs := Singles(chunks)[from..];
      assert runs[0] == Run(chunks[from], from, from + 1) && runs[1..] == Singles(chunks)[from + 1..];
      SinglesChain(chunks, from + 1, norm);
    }
  }

  lemma {:induction false} GatheredChain(current: Run, rest: seq<Run>, hi: nat, chunks: seq<DocumentChunk>, minimum: nat, norm: string -> string)
    requires IsNormalizer(norm) && IsRun(current, chunks, norm) && Chain(rest, current.hi, hi, chunks, norm)
    ensures Chain(Gathered(current, rest, minimum, norm), current.lo, hi, chunks, norm)
    decreases |rest|
  {
    if rest == [] {
      assert [current][1..] == [];
    } else if LongEnough(current.chunk, minimum, norm) {
      var later := Gathered(rest[0], rest[1..], minimum, norm);
      GatheredChain(rest[0], rest[1..], hi, chunks, minimum, norm);
      assert ([current] + later)[1..] == later;
    } else {
      BothIsRun(current, rest[0], chunks, norm);
      GatheredChain(Both(current, rest[0], norm), rest[1..], hi, chunks, minimum, norm);
    }
  }

  lemma {:induction false} AbsorbedChain(runs: seq<Run>, lo: nat, hi: nat, chunks: seq<DocumentChunk>, minimum: nat, norm: string -> string)
    requires IsNormalizer(norm) && Chain(runs, lo, hi, chunks, norm)
    ensures Chain(Absorbed(runs, minimum, norm), lo, hi, chunks, norm)
    decreases |runs|
  {
    var n := |runs|;
    if n > 1 && !LongEnough(runs[n - 1].chunk, minimum, norm) {
      var a, b := runs[n - 2], runs[n - 1];
      var mid := ChainParts(runs, n - 2, lo, hi, chunks, norm);
      assert runs[n - 2..][0] == a && runs[n - 2..][1..] == [b] && [b][0] == b && [b][1..] == [];
      BothIsRun(a, b, chunks, norm);
      var both := Both(a, b, norm);
      assert [both][1..] == [] && Chain([both], mid, hi, chunks, norm);
      ChainOfTwo(runs[..n - 2], [both], lo, mid, hi, chunks, norm);
      AbsorbedChain(runs[..n - 2] + [both], lo, hi, chunks, minimum, norm);
    }
  }

  /** The runs divide the page's chunks, in order, and each holds exactly the distinct paragraphs of its own. */
  lemma MergedRunsDivideThePage(chunks: seq<DocumentChunk>, minimum: nat, norm: string -> string)
    requires IsNormalizer(norm)
    ensures Chain(MergeRuns(chunks, minimum, norm), 0, |chunks|, chunks, norm)
  {
    var singles := Singles(chunks);
    assert singles[0..] == singles;
    SinglesChain(chunks, 0, norm);
    if chunks == [] {
      assert [] + singles == [];
    } else {
      GatheredChain(singles[0], singles[1..], |chunks|, chunks, minimum, norm);
      var gathered := Gathered(singles[0], singles[1..], minimum, norm);
      assert [] + gathered == gathered;
      AbsorbedChain(gathered, 0, |chunks|, chunks, minimum, norm);
    }
  }

  // ---------------------------------------------------------------------------------------
  // How long the merged chunks are.

  function Total(paragraphs: seq<string>): nat {
    if paragraphs == [] then 0 else |paragraphs[0]| + Total(paragraphs[1..])
  }

  /** The paragraphs and a blank line between any two. */
  function JoinLength(paragraphs: seq<string>): nat {
    if paragraphs == [] then 0 else Total(paragraphs) + 2 * (|paragraphs| - 1)
  }

  lemma {:induction false} JoinLengthIsLength(paragraphs: seq<string>)
    ensures |Join(paragraphs)| == JoinLength(paragraphs)
  {
    if |paragraphs| == 1 {
      assert paragraphs[1..] == [] && Total(paragraphs[1..]) == 0;
    } else if |paragraphs| > 1 {
      JoinLengthIsLength(paragraphs[1..]);
    }
  }

  predicate AllWithin(chunks: seq<DocumentChunk>, limit: nat) {
    forall k :: 0 <= k < |chunks| ==> |chunks[k].text| <= limit
  }

  /** What a run of several chunks comes to. */
  predicate RunFits(run: Run, chunks: seq<DocumentChunk>, limit: nat, norm: string -> string)
    requires run.lo <= run.hi <= |chunks|
  {
    run.hi > run.lo + 1 ==> JoinLength(DistinctParagraphs(chunks[run.lo..run.hi], norm)) <= limit
  }

  /** Every run of several chunks has room for its distinct paragraphs. */
  ghost predicate RunsFit(chunks: seq<DocumentChunk>, minimum: nat, limit: nat, norm: string -> string) {
    var runs := MergeRuns(chunks, minimum, norm);
    forall k :: 0 <= k < |runs| ==> runs[k].lo <= runs[k].hi <= |chunks| && RunFits(runs[k], chunks, limit, norm)
  }

  lemma RunFitsExactlyWhen(run: Run, chunks: seq<DocumentChunk>, limit: nat, norm: string -> string)
    requires IsRun(run, chunks, norm) && AllWithin(chunks, limit)
    ensures |run.chunk.text| <= limit <==> RunFits(run, chunks, limit, norm)
  {
    JoinLengthIsLength(DistinctParagraphs(chunks[run.lo..run.hi], norm));
  }

  /**
   * If the section chunks of a page are within a limit, then so are the merged ones exactly when in every
   * run of several chunks the distinct paragraphs, with a blank line between any two, are.
   */
  lemma MergedChunksFitExactlyWhen(chunks: seq<DocumentChunk>, minimum: nat, limit: nat, norm: string -> string)
    requires IsNormalizer(norm) && AllWithin(chunks, limit)
    ensures AllWithin(RunChunks(MergeRuns(chunks, minimum, norm)), limit) <==> RunsFit(chunks, minimum, limit, norm)
  {
    var runs := MergeRuns(chunks, minimum, norm);
    MergedRunsDivideThePage(chunks, minimum, norm);
    forall k | 0 <= k < |runs|
      ensures runs[k].lo < runs[k].hi <= |chunks|
      ensures |RunChunks(runs)[k].text| <= limit <==> RunFits(runs[k], chunks, limit, norm)
    {
      ChainHolds(runs, k, 0, |chunks|, chunks, norm);
      RunFitsExactlyWhen(runs[k], chunks, limit, norm);
    }
  }

  /** A chunk that is not long enough, before one of another paragraph: together they are longer than either. */
  lemma TwoMergeIntoOne(first: DocumentChunk, second: DocumentChunk, minimum: nat, norm: string -> string)
    requires IsNormalizer(norm) && IsParagraph(first.text) && IsParagraph(second.text)
    requires norm(first.text) != [] && norm(second.text) != [] && norm(first.text) != norm(second.text)
    requires !LongEnough(first, minimum, norm)
    ensures var merged := RunChunks(MergeRuns([first, second], minimum, norm));
            |merged| == 1 && |merged[0].text| == |first.text| + 2 + |second.text|
  {
    var chunks := [first, second];
    var a, b := Run(first, 0, 1), Run(second, 1, 2);
    assert Singles(chunks) == [a, b] && [a, b][1..] == [b] && [b][1..] == [];
    assert Gathered(a, [b], minimum, norm) == Gathered(Both(a, b, norm), [], minimum, norm) == [Both(a, b, norm)];
    assert [] + [Both(a, b, norm)] == [Both(a, b, norm)];
    assert MergeRuns(chunks, minimum, norm) == [Both(a, b, norm)];
    TwoParagraphsJoin(first.text, second.text, norm);
  }

  lemma TwoParagraphsJoin(p: string, q: string, norm: string -> string)
    requires IsParagraph(p) && IsParagraph(q) && norm(p) != [] && norm(q) != [] && norm(p) != norm(q)
    ensures |Join(Collect(Collect([], Split(p), norm), Split(q), norm))| == |p| + 2 + |q|
  {
    assert Split(p) == [p] && Split(q) == [q];
    assert [p][..0] == [] && [q][..0] == [];
    TrimmedStripsToItself(p);
    TrimmedStripsToItself(q);
    assert KeysOf([], norm) == {};
    assert Collect([], [p], norm) == [] + [p] == [p];
    assert KeysOf([p], norm) == {norm(p)};
    assert Collect([p], [q], norm) == [p] + [q] == [p, q];
    JoinLengthIsLength([p, q]);
    assert [p, q][1..] == [q] && Total([q]) == |q|;
  }
}
