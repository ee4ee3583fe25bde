/** Merging tiny chunks of a page, and dropping duplicates across the document. */
module ChunkMerger {
  import opened Text
  import opened BlockChunker

  const MIN_MERGED_CHUNK_CHARS := 80
  const MIN_INDEXABLE_CHUNK_CHARS := 40

  /** All that is assumed of the content normalisation: blank stays blank, and outer white space does not matter. */
  ghost predicate IsNormalizer(norm: string -> string) {
    norm([]) == [] && forall s :: norm(Strip(s)) == norm(s)
  }

  /** The keys of the text's paragraphs that are not blank. */
  function ParagraphKeys(text: string, norm: string -> string): set<string> {
    KeysOf(Split(text), norm)
  }

  function KeysOf(paragraphs: seq<string>, norm: string -> string): set<string> {
    set p | p in paragraphs && norm(p) != [] :: norm(p)
  }

  function ChunkKeys(norm: string -> string): DocumentChunk -> set<string> {
    (c: DocumentChunk) => ParagraphKeys(c.text, norm)
  }

  /** The union of the chunks' keys. */
  function UnionKeys(chunks: seq<DocumentChunk>, keys: DocumentChunk -> set<string>): set<string> {
    if chunks == [] then {} else keys(chunks[0]) + UnionKeys(chunks[1..], keys)
  }

  /** All paragraph keys of a page. */
  function PageKeys(chunks: seq<DocumentChunk>, norm: string -> string): set<string> {
    UnionKeys(chunks, ChunkKeys(norm))
  }

  predicate IsHeadingOnly(chunk: DocumentChunk, norm: string -> string) {
    norm(chunk.text) == norm(chunk.section)
  }

  ghost predicate DistinctKeys(paragraphs: seq<string>, norm: string -> string) {
    forall j, k :: 0 <= j < k < |paragraphs| ==> norm(paragraphs[j]) != norm(paragraphs[k])
  }

  /** Paragraphs collected so far: trimmed, none blank, and `seen` holds exactly their keys. */
  ghost predicate Collected(paragraphs: seq<string>, seen: set<string>, norm: string -> string) {
    && (forall p :: p in paragraphs ==> IsParagraph(p) && norm(p) != [])
    && DistinctKeys(paragraphs, norm)
    && seen == KeysOf(paragraphs, norm)
  }

  lemma KeysSnoc(paragraphs: seq<string>, p: string, norm: string -> string)
    ensures KeysOf(paragraphs + [p], norm) == KeysOf(paragraphs, norm) + if norm(p) != [] then {norm(p)} else {}
  {
    forall q | q in paragraphs + [p]
      ensures q == p || q in paragraphs
    {
    }
    assert p in paragraphs + [p];
  }

  lemma StrippedIsParagraph(p: string, norm: string -> string)
    requires IsNormalizer(norm) && NoBreak(p) && norm(p) != []
    ensures IsParagraph(Strip(p)) && norm(Strip(p)) == norm(p)
  {
    var lo, hi := StripCuts(p);
    NoBreakInside(p, lo, hi);
  }

  /** One more paragraph, unless it is blank or its key is known. */
  function AddOne(before: seq<string>, p: string, norm: string -> string): seq<string> {
    if norm(p) != [] && norm(p) !in KeysOf(before, norm) then before + [Strip(p)] else before
  }

  /** Behind what was collected before: of the paragraphs not blank, the first with each new key, trimmed. */
  function Collect(before: seq<string>, parts: seq<string>, norm: string -> string): seq<string> {
    if parts == [] then before else AddOne(Collect(before, parts[..|parts| - 1], norm), parts[|parts| - 1], norm)
  }

  lemma CollectNext(before: seq<string>, parts: seq<string>, i: nat, norm: string -> string)
    requires i < |parts|
    ensures Collect(before, parts[..i + 1], norm) == AddOne(Collect(before, parts[..i], norm), parts[i], norm)
    ensures KeysOf(parts[..i + 1], norm) == KeysOf(parts[..i], norm) + if norm(parts[i]) != [] then {norm(parts[i])} else {}
  {
    assert parts[..i + 1][..i] == parts[..i] && parts[..i + 1] == parts[..i] + [parts[i]];
    KeysSnoc(parts[..i], parts[i], norm);
  }

  /** Add the paragraphs of one text that were not seen yet. */
  method AddParagraphs(text: string, before: seq<string>, known: set<string>, norm: string -> string)
    returns (paragraphs: seq<string>, seen: set<string>)
    requires IsNormalizer(norm) && Collected(before, known, norm)
    ensures paragraphs == Collect(before, Split(text), norm)
    ensures Collected(paragraphs, seen, norm) && seen == known + ParagraphKeys(text, norm)
  {
    paragraphs, seen := before, known;
    var parts := Split(text);
    SplitPartsHaveNoBreak(text);
    for i := 0 to |parts|
      invariant paragraphs == Collect(before, parts[..i], norm)
      invariant Collected(paragraphs, seen, norm) && seen == known + KeysOf(parts[..i], norm)
    {
      var key := norm(parts[i]);
      CollectNext(before, parts, i, norm);
      if key != [] && key !in seen {
        StrippedIsParagraph(parts[i], norm);
        CollectOne(paragraphs, seen, Strip(parts[i]), norm);
        seen := seen + {key};
        paragraphs := paragraphs + [Strip(parts[i])];
      }
    }
    assert parts[..|parts|] == parts;
  }

  lemma CollectOne(paragraphs: seq<string>, seen: set<string>, p: string, norm: string -> string)
    requires Collected(paragraphs, seen, norm) && IsParagraph(p) && norm(p) != [] && norm(p) !in seen
    ensures Collected(paragraphs + [p], seen + {norm(p)}, norm)
  {
    KeysSnoc(paragraphs, p, norm);
    forall k | 0 <= k < |paragraphs|
      ensures norm(paragraphs[k]) != norm(p)
    {
      assert paragraphs[k] in paragraphs;
    }
  }

  lemma JoinedKeys(paragraphs: seq<string>, seen: set<string>, norm: string -> string)
    requires IsNormalizer(norm) && Collected(paragraphs, seen, norm)
    ensures ParagraphKeys(Join(paragraphs), norm) == seen
  {
    if paragraphs == [] {
      assert Split([]) == [[]];
    } else {
      SplitJoin(paragraphs);
    }
  }

  /** Both chunks in one: every paragraph key once, under the first section unless that chunk is a mere heading. */
  function Merged(first: DocumentChunk, second: DocumentChunk, norm: string -> string): DocumentChunk {
    first.(text := Join(Collect(Collect([], Split(first.text), norm), Split(second.text), norm)),
           section := if norm(first.text) == norm(first.section) && norm(second.text) != norm(second.section) then second.section
                      else first.section,
           ocrUsed := first.ocrUsed || second.ocrUsed)
  }

  /** The merged text has exactly the paragraph keys of both, each once. */
  method MergeChunks(first: DocumentChunk, second: DocumentChunk, norm: string -> string) returns (merged: DocumentChunk)
    requires IsNormalizer(norm)
    ensures merged == Merged(first, second, norm)
    ensures ParagraphKeys(merged.text, norm) == ParagraphKeys(first.text, norm) + ParagraphKeys(second.text, norm)
    ensures exists paragraphs, seen :: Collected(paragraphs, seen, norm) && merged.text == Join(paragraphs)
  {
    var paragraphs, seen := AddParagraphs(first.text, [], {}, norm);
    paragraphs, seen := AddParagraphs(second.text, paragraphs, seen, norm);
    JoinedKeys(paragraphs, seen, norm);
    var section := if IsHeadingOnly(first, norm) && !IsHeadingOnly(second, norm) then second.section else first.section;
    merged := first.(text := Join(paragraphs), section := section, ocrUsed := first.ocrUsed || second.ocrUsed);
  }

  // ---------------------------------------------------------------------------------------
  // The merge loop of one page.

  predicate LongEnough(chunk: DocumentChunk, minimum: nat, norm: string -> string) {
    |norm(chunk.text)| >= minimum && norm(chunk.text) != norm(chunk.section)
  }

  lemma {:induction false} UnionAppend(a: seq<DocumentChunk>, b: seq<DocumentChunk>, keys: DocumentChunk -> set<string>)
    ensures UnionKeys(a + b, keys) == UnionKeys(a, keys) + UnionKeys(b, keys)
  {
    if a == [] {
      assert a + b == b;
    } else {
      assert (a + b)[0] == a[0] && (a + b)[1..] == a[1..] + b;
      UnionAppend(a[1..], b, keys);
    }
  }

  lemma UnionCons(c: DocumentChunk, rest: seq<DocumentChunk>, keys: DocumentChunk -> set<string>)
    ensures UnionKeys([c] + rest, keys) == keys(c) + UnionKeys(rest, keys)
  {
    assert ([c] + rest)[1..] == rest;
  }

  lemma ReplaceBetween(front: seq<DocumentChunk>, x: DocumentChunk, y: DocumentChunk, merged: DocumentChunk,
                       rest: seq<DocumentChunk>, keys: DocumentChunk -> set<string>)
    requires keys(merged) == keys(x) + keys(y)
    ensures UnionKeys(front + ([merged] + rest), keys) == UnionKeys(front + ([x] + ([y] + rest)), keys)
  {
    UnionAppend(front, [x] + ([y] + rest), keys);
    UnionAppend(front, [merged] + rest, keys);
    UnionCons(x, [y] + rest, keys);
    UnionCons(y, rest, keys);
    UnionCons(merged, rest, keys);
  }

  lemma HeadAndTail(chunks: seq<DocumentChunk>, i: nat)
    requires i < |chunks|
    ensures chunks[i..] == [chunks[i]] + chunks[i + 1..]
  {
  }

  lemma Regroup(a: seq<DocumentChunk>, b: seq<DocumentChunk>, c: seq<DocumentChunk>)
    ensures a + b + c == a + (b + c)
  {
  }

  /** Replacing two neighbours by one chunk with both their keys keeps the page's keys. */
  lemma ReplacePair(pending: seq<DocumentChunk>, i: nat, merged: DocumentChunk, keys: DocumentChunk -> set<string>)
    requires i + 1 < |pending| && keys(merged) == keys(pending[i]) + keys(pending[i + 1])
    ensures UnionKeys(pending[..i] + [merged] + pending[i + 2..], keys) == UnionKeys(pending, keys)
  {
    var front, x, y, rest := pending[..i], pending[i], pending[i + 1], pending[i + 2..];
    ReplaceBetween(front, x, y, merged, rest, keys);
    HeadAndTail(pending, i);
    HeadAndTail(pending, i + 1);
    assert pending == front + pending[i..];
    Regroup(front, [merged], rest);
  }

  predicate AllLongEnough(chunks: seq<DocumentChunk>, minimum: nat, norm: string -> string) {
    forall k :: 0 <= k < |chunks| ==> LongEnough(chunks[k], minimum, norm)
  }

  /** A chunk, and which of the page's chunks went into it. */
  datatype Run = Run(chunk: DocumentChunk, lo: nat, hi: nat)

  function Both(a: Run, b: Run, norm: string -> string): Run { Run(Merged(a.chunk, b.chunk, norm), a.lo, b.hi) }

  function Singles(chunks: seq<DocumentChunk>): seq<Run> { seq(|chunks|, k requires 0 <= k < |chunks| => Run(chunks[k], k, k + 1)) }

  function RunChunks(runs: seq<Run>): seq<DocumentChunk> { seq(|runs|, k requires 0 <= k < |runs| => runs[k].chunk) }

  /** Forwards: a run takes in its successors until it is long enough. */
  function Gathered(current: Run, rest: seq<Run>, minimum: nat, norm: string -> string): seq<Run>
    decreases |rest|
  {
    if rest == [] then [current]
    else if LongEnough(current.chunk, minimum, norm) then [current] + Gathered(rest[0], rest[1..], minimum, norm)
    else Gathered(Both(current, rest[0], norm), rest[1..], minimum, norm)
  }

  /** Backwards: a last run that is not long enough joins its predecessor. */
  function Absorbed(runs: seq<Run>, minimum: nat, norm: string -> string): seq<Run>
    decreases |runs|
  {
    var n := |runs|;
    if n > 1 && !LongEnough(runs[n - 1].chunk, minimum, norm) then
      Absorbed(runs[..n - 2] + [Both(runs[n - 2], runs[n - 1], norm)], minimum, norm)
    else runs
  }

  /** Finished runs, and runs still to be gathered. */
  function Finish(front: seq<Run>, rest: seq<Run>, minimum: nat, norm: string -> string): seq<Run> {
    Absorbed(front + if rest == [] then [] else Gathered(rest[0], rest[1..], minimum, norm), minimum, norm)
  }

  /** What becomes of a page's chunks: gather once forwards, then absorb backwards. */
  function MergeRuns(chunks: seq<DocumentChunk>, minimum: nat, norm: string -> string): seq<Run> {
    Finish([], Singles(chunks), minimum, norm)
  }

  function ReplaceTwo(runs: seq<Run>, i: nat, norm: string -> string): seq<Run>
    requires i + 1 < |runs|
  {
    runs[..i] + [Both(runs[i], runs[i + 1], norm)] + runs[i + 2..]
  }

  lemma StepOn(runs: seq<Run>, i: nat, minimum: nat, norm: string -> string)
    requires i < |runs| && LongEnough(runs[i].chunk, minimum, norm)
    ensures Finish(runs[..i + 1], runs[i + 1..], minimum, norm) == Finish(runs[..i], runs[i..], minimum, norm)
  {
    var rest := runs[i..];
    assert rest[0] == runs[i] && rest[1..] == runs[i + 1..] && runs[..i + 1] == runs[..i] + [runs[i]];
    if i + 1 < |runs| {
      var later := Gathered(runs[i + 1], runs[i + 1..][1..], minimum, norm);
      assert runs[..i] + ([runs[i]] + later) == runs[..i + 1] + later;
    } else {
      assert runs[..i + 1] + [] == runs[..i] + [runs[i]];
    }
  }

  lemma StepJoins(runs: seq<Run>, i: nat, minimum: nat, norm: string -> string)
    requires i + 1 < |runs| && !LongEnough(runs[i].chunk, minimum, norm)
    ensures var runs' := ReplaceTwo(runs, i, norm);
            Finish(runs'[..i], runs'[i..], minimum, norm) == Finish(runs[..i], runs[i..], minimum, norm)
  {
    var runs' := ReplaceTwo(runs, i, norm);
    assert runs[i..][0] == runs[i] && runs[i..][1..][0] == runs[i + 1] && runs[i..][1..][1..] == runs[i + 2..];
    assert runs'[..i] == runs[..i] && runs'[i..][0] == runs'[i] && runs'[i..][1..] == runs[i + 2..];
  }

  lemma StepBack(runs: seq<Run>, minimum: nat, norm: string -> string)
    requires |runs| > 1 && !LongEnough(runs[|runs| - 1].chunk, minimum, norm)
    ensures var i := |runs| - 2; var runs' := ReplaceTwo(runs, i, norm);
            Finish(runs'[..i], runs'[i..], minimum, norm) == Finish(runs[..i + 1], runs[i + 1..], minimum, norm)
  {
    var i := |runs| - 2;
    var runs' := ReplaceTwo(runs, i, norm);
    var both := Both(runs[i], runs[i + 1], norm);
    assert runs[i + 1..] == [runs[i + 1]] && runs[..i + 1] + [runs[i + 1]] == runs;
    assert runs[i + 2..] == [] && runs' == runs[..i] + [both];
    assert runs'[i..] == [both] && [both][1..] == [];
    assert [runs[i + 1]][1..] == [];
  }

  lemma StepEnds(runs: seq<Run>, i: nat, minimum: nat, norm: string -> string)
    requires i <= |runs| && (|runs| <= 1 || i == |runs|)
    requires forall k :: 0 <= k < i ==> LongEnough(runs[k].chunk, minimum, norm)
    ensures Finish(runs[..i], runs[i..], minimum, norm) == runs
  {
    assert runs[..i] + runs[i..] == runs;
    if i < |runs| {
      assert runs[i..] == [runs[0]] && [runs[0]][1..] == [];
    }
  }

  function MergedAt(pending: seq<DocumentChunk>, i: nat, norm: string -> string): seq<DocumentChunk>
    requires i + 1 < |pending|
  {
    pending[..i] + [Merged(pending[i], pending[i + 1], norm)] + pending[i + 2..]
  }

  /** Merge the chunk at `i` with the next one, in place. */
  method MergeAt(pending: seq<DocumentChunk>, i: nat, norm: string -> string) returns (shorter: seq<DocumentChunk>)
    requires IsNormalizer(norm) && i + 1 < |pending|
    ensures shorter == MergedAt(pending, i, norm)
    ensures PageKeys(shorter, norm) == PageKeys(pending, norm)
  {
    var merged := MergeChunks(pending[i], pending[i + 1], norm);
    ReplacePair(pending, i, merged, ChunkKeys(norm));
    shorter := pending[..i] + [merged] + pending[i + 2..];
  }

  lemma ReplaceChunks(runs: seq<Run>, i: nat, norm: string -> string)
    requires i + 1 < |runs|
    ensures RunChunks(ReplaceTwo(runs, i, norm)) == MergedAt(RunChunks(runs), i, norm)
  {
  }

  /** What is still to be done leads to the page's runs. */
  ghost predicate Settled(chunks: seq<DocumentChunk>, runs: seq<Run>, index: nat, minimum: nat, norm: string -> string) {
    index <= |runs| && Finish(runs[..index], runs[index..], minimum, norm) == MergeRuns(chunks, minimum, norm)
  }

  /** Those before the index are done, and nothing has changed if nothing needs merging. */
  ghost predicate Advanced(chunks: seq<DocumentChunk>, runs: seq<Run>, index: nat, minimum: nat, norm: string -> string) {
    && index <= |runs| <= |chunks| && (chunks != [] ==> runs != [])
    && (forall k :: 0 <= k < index ==> LongEnough(runs[k].chunk, minimum, norm))
    && (AllLongEnough(chunks, minimum, norm) ==> RunChunks(runs) == chunks)
  }

  /** The merge loop's state. */
  ghost predicate Merging(chunks: seq<DocumentChunk>, runs: seq<Run>, index: nat, minimum: nat, norm: string -> string) {
    Advanced(chunks, runs, index, minimum, norm) && Settled(chunks, runs, index, minimum, norm)
  }

  lemma MergingStarts(chunks: seq<DocumentChunk>, minimum: nat, norm: string -> string)
    ensures Merging(chunks, Singles(chunks), 0, minimum, norm) && RunChunks(Singles(chunks)) == chunks
  {
    var runs := Singles(chunks);
    assert runs[..0] == [] && runs[0..] == runs;
  }

  lemma MergingSteps(chunks: seq<DocumentChunk>, runs: seq<Run>, index: nat, minimum: nat, norm: string -> string)
    requires Merging(chunks, runs, index, minimum, norm) && index < |runs| && LongEnough(RunChunks(runs)[index], minimum, norm)
    ensures Merging(chunks, runs, index + 1, minimum, norm)
  {
    StepOn(runs, index, minimum, norm);
  }

  /** Once something needs merging, two neighbours from there on, or from just before, may be replaced. */
  lemma ReplacedIsAdvanced(chunks: seq<DocumentChunk>, runs: seq<Run>, index: nat, i: nat, minimum: nat, norm: string -> string)
    requires Advanced(chunks, runs, index, minimum, norm) && index < |runs| && !LongEnough(RunChunks(runs)[index], minimum, norm)
    requires i <= index && i + 1 < |runs|
    ensures Advanced(chunks, ReplaceTwo(runs, i, norm), i, minimum, norm)
    ensures RunChunks(ReplaceTwo(runs, i, norm)) == MergedAt(RunChunks(runs), i, norm)
  {
    assert !AllLongEnough(chunks, minimum, norm);
    var runs' := ReplaceTwo(runs, i, norm);
    assert |runs'| == |runs| - 1 && forall k :: 0 <= k < i ==> runs'[k] == runs[k];
    ReplaceChunks(runs, i, norm);
  }

  lemma JoinIsSettled(chunks: seq<DocumentChunk>, runs: seq<Run>, index: nat, minimum: nat, norm: string -> string)
    requires Settled(chunks, runs, index, minimum, norm) && index + 1 < |runs| && !LongEnough(RunChunks(runs)[index], minimum, norm)
    ensures Settled(chunks, ReplaceTwo(runs, index, norm), index, minimum, norm)
  {
    StepJoins(runs, index, minimum, norm);
  }

  lemma BackIsSettled(chunks: seq<DocumentChunk>, runs: seq<Run>, index: nat, minimum: nat, norm: string -> string)
    requires 0 < index == |runs| - 1 && Settled(chunks, runs, index, minimum, norm) && !LongEnough(RunChunks(runs)[index], minimum, norm)
    ensures Settled(chunks, ReplaceTwo(runs, index - 1, norm), index - 1, minimum, norm)
  {
    StepBack(runs, minimum, norm);
  }

  lemma MergingJoins(chunks: seq<DocumentChunk>, runs: seq<Run>, index: nat, minimum: nat, norm: string -> string)
    requires Merging(chunks, runs, index, minimum, norm) && index + 1 < |runs| && !LongEnough(RunChunks(runs)[index], minimum, norm)
    ensures Merging(chunks, ReplaceTwo(runs, index, norm), index, minimum, norm)
    ensures RunChunks(ReplaceTwo(runs, index, norm)) == MergedAt(RunChunks(runs), index, norm)
  {
    ReplacedIsAdvanced(chunks, runs, index, index, minimum, norm);
    JoinIsSettled(chunks, runs, index, minimum, norm);
  }

  lemma MergingBacks(chunks: seq<DocumentChunk>, runs: seq<Run>, index: nat, minimum: nat, norm: string -> string)
    requires 0 < index == |runs| - 1 && Merging(chunks, runs, index, minimum, norm) && !LongEnough(RunChunks(runs)[index], minimum, norm)
    ensures Merging(chunks, ReplaceTwo(runs, index - 1, norm), index - 1, minimum, norm)
    ensures RunChunks(ReplaceTwo(runs, index - 1, norm)) == MergedAt(RunChunks(runs), index - 1, norm)
  {
    ReplacedIsAdvanced(chunks, runs, index, index - 1, minimum, norm);
    BackIsSettled(chunks, runs, index, minimum, norm);
  }

  lemma MergingEnds(chunks: seq<DocumentChunk>, runs: seq<Run>, index: nat, minimum: nat, norm: string -> string)
    requires Merging(chunks, runs, index, minimum, norm) && (|runs| <= 1 || index == |runs|)
    ensures runs == MergeRuns(chunks, minimum, norm)
    ensures |runs| <= 1 || AllLongEnough(RunChunks(runs), minimum, norm)
  {
    StepEnds(runs, index, minimum, norm);
  }

  /**
   * The loop merges a chunk that is not long enough with its successor, and the last one with its
   * predecessor, which moves the index back; all in all it gathers forwards and then absorbs backwards.
   */
  method MergeTinyPageChunks(chunks: seq<DocumentChunk>, minimumChars: nat, norm: string -> string) returns (pending: seq<DocumentChunk>)
    requires IsNormalizer(norm)
    ensures pending == RunChunks(MergeRuns(chunks, minimumChars, norm))
    ensures PageKeys(pending, norm) == PageKeys(chunks, norm)
    ensures |pending| <= 1 || AllLongEnough(pending, minimumChars, norm)
    ensures |pending| <= |chunks| && (chunks != [] ==> pending != [])
    ensures AllLongEnough(chunks, minimumChars, norm) ==> pending == chunks
  {
    pending := chunks;
    ghost var runs := Singles(chunks);
    var index := 0;
    MergingStarts(chunks, minimumChars, norm);
    while |pending| > 1 && index < |pending|
      invariant 0 <= index && pending == RunChunks(runs) && Merging(chunks, runs, index, minimumChars, norm)
      invariant PageKeys(pending, norm) == PageKeys(chunks, norm)
      decreases |pending|, |pending| - index
    {
      var chunk := pending[index];
      if |norm(chunk.text)| >= minimumChars && !IsHeadingOnly(chunk, norm) {
        MergingSteps(chunks, runs, index, minimumChars, norm);
        index := index + 1;
      } else if index + 1 < |pending| {
        MergingJoins(chunks, runs, index, minimumChars, norm);
        pending := MergeAt(pending, index, norm);
        runs := ReplaceTwo(runs, index, norm);
      } else {
        MergingBacks(chunks, runs, index, minimumChars, norm);
        pending := MergeAt(pending, index - 1, norm);
        runs := ReplaceTwo(runs, index - 1, norm);
        index := index - 1;
      }
    }
    MergingEnds(chunks, runs, index, minimumChars, norm);
  }

  // ---------------------------------------------------------------------------------------

  predicate Indexable(chunk: DocumentChunk, norm: string -> string) {
    |norm(chunk.text)| >= MIN_INDEXABLE_CHUNK_CHARS && norm(chunk.text) != norm(chunk.section)
  }

  /** Among the first `n` chunks, the indexable ones that come first with their key, in order; `at` tells where each came from. */
  ghost predicate FirstOfEach(chunks: seq<DocumentChunk>, n: nat, kept: seq<DocumentChunk>, at: seq<nat>, norm: string -> string)
    requires n <= |chunks|
  {
    && |at| == |kept|
    && (forall k :: 0 <= k < |kept| ==>
          at[k] < n && kept[k] == chunks[at[k]] && Indexable(kept[k], norm)
          && forall i :: 0 <= i < at[k] && Indexable(chunks[i], norm) ==> norm(chunks[i].text) != norm(kept[k].text))
    && (forall j, k :: 0 <= j < k < |kept| ==> at[j] < at[k])
    && (forall i :: 0 <= i < n && Indexable(chunks[i], norm) ==> norm(chunks[i].text) in KeysOfChunks(kept, norm))
  }

  lemma KeepOne(chunks: seq<DocumentChunk>, n: nat, kept: seq<DocumentChunk>, at: seq<nat>, norm: string -> string)
    requires n < |chunks| && FirstOfEach(chunks, n, kept, at, norm)
    requires Indexable(chunks[n], norm) && norm(chunks[n].text) !in KeysOfChunks(kept, norm)
    ensures FirstOfEach(chunks, n + 1, kept + [chunks[n]], at + [n], norm)
  {
    ChunkKeysSnoc(kept, chunks[n], norm);
  }

  method DeduplicateChunks(chunks: seq<DocumentChunk>, norm: string -> string) returns (kept: seq<DocumentChunk>, ghost at: seq<nat>)
    ensures FirstOfEach(chunks, |chunks|, kept, at, norm)
    ensures exists from :: FirstOfEach(chunks, |chunks|, kept, from, norm)
  {
    kept, at := [], [];
    var seen: set<string> := {};
    for n := 0 to |chunks|
      invariant FirstOfEach(chunks, n, kept, at, norm) && seen == KeysOfChunks(kept, norm)
    {
      var key := norm(chunks[n].text);
      if |key| < MIN_INDEXABLE_CHUNK_CHARS || IsHeadingOnly(chunks[n], norm) || key in seen {
        continue;
      }
      KeepOne(chunks, n, kept, at, norm);
      ChunkKeysSnoc(kept, chunks[n], norm);
      seen := seen + {key};
      kept, at := kept + [chunks[n]], at + [n];
    }
  }

  function KeysOfChunks(chunks: seq<DocumentChunk>, norm: string -> string): set<string> {
    set c | c in chunks :: norm(c.text)
  }

  lemma ChunkKeysSnoc(chunks: seq<DocumentChunk>, c: DocumentChunk, norm: string -> string)
    ensures KeysOfChunks(chunks + [c], norm) == KeysOfChunks(chunks, norm) + {norm(c.text)}
  {
    assert c in chunks + [c];
    forall d | d in chunks + [c]
      ensures d == c || d in chunks
    {
    }
  }

  /** Kept chunks never share a key. */
  lemma KeptKeysAreDistinct(chunks: seq<DocumentChunk>, kept: seq<DocumentChunk>, at: seq<nat>, norm: string -> string, j: nat, k: nat)
    requires FirstOfEach(chunks, |chunks|, kept, at, norm) && j < k < |kept|
    ensures norm(kept[j].text) != norm(kept[k].text)
  {
    assert Indexable(chunks[at[j]], norm);
  }
}
