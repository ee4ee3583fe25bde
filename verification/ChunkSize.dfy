/** When the chunk size limits the chunks: those of a section, and those of a page after merging. */
module ChunkSize {
  import opened Text
  import opened LongText
  import opened BlockChunker
  import opened ChunkMerger
  import opened MergedRuns
  import opened DocumentChunker

  // ---------------------------------------------------------------------------------------
  // Sections without overlap.

  lemma PartsAreWithin(text: string, parts: seq<string>, chunkSize: nat, boundary: string -> seq<string>)
    requires chunkSize > 0 && SplitsInto(text, parts, chunkSize, 0, boundary)
    ensures forall p :: 0 <= p < |parts| ==> |parts[p]| <= chunkSize
  {
    var sentences := Sentences(boundary(text));
    if |text| <= chunkSize {
    } else if PacksBySentence(sentences, chunkSize) {
      var spans :| Packed(parts, spans, sentences, chunkSize, 0, s => Repeated(s, 0)) && EndOf(spans) == |sentences|;
      NoOverlapNoExcess(parts, spans, sentences, chunkSize);
    } else {
      WindowsAreShort(text, chunkSize, WindowStarts(text, chunkSize, 0));
    }
  }

  lemma MoreShort(a: seq<ParsedBlock>, b: seq<ParsedBlock>, limit: nat)
    requires AllShort(a, limit) && AllShort(b, limit)
    ensures AllShort(a + b, limit)
  {
  }

  lemma {:induction false} SplitBlocksAreWithin(blocks: seq<ParsedBlock>, parts: seq<seq<string>>, chunkSize: nat, boundary: string -> seq<string>)
    requires chunkSize > 0 && AllSplit(blocks, parts, chunkSize, 0, boundary)
    ensures AllShort(Flatten(blocks, parts), chunkSize)
  {
    if blocks != [] {
      var last := |blocks| - 1;
      SplitBlocksAreWithin(blocks[..last], parts[..last], chunkSize, boundary);
      PartsAreWithin(blocks[last].text, parts[last], chunkSize, boundary);
      MoreShort(Flatten(blocks[..last], parts[..last]), PartBlocks(blocks[last], parts[last]), chunkSize);
    }
  }

  /** Without overlap no chunk of a section exceeds the size, however its texts divide into sentences. */
  lemma NoOverlapKeepsTheSize(blocks: seq<ParsedBlock>, chunks: seq<DocumentChunk>, start: nat, chunkSize: nat, boundary: string -> seq<string>)
    requires chunkSize > 0 && SectionChunks(blocks, chunks, start, chunkSize, 0, boundary)
    ensures AllWithin(chunks, chunkSize)
  {
    var parts, ws :| && AllSplit(blocks, parts, chunkSize, 0, boundary)
                     && Windows(Flatten(blocks, parts), ws, chunkSize, 0) && EndOf(ws) == |Flatten(blocks, parts)|
                     && ChunksOf(chunks, Flatten(blocks, parts), ws, start);
    SplitBlocksAreWithin(blocks, parts, chunkSize, boundary);
    forall p | 0 <= p < |chunks|
      ensures |chunks[p].text| <= chunkSize
    {
      ChunkLength(Flatten(blocks, parts), ws[p], chunkSize, chunkSize, start + p);
    }
  }

  // ---------------------------------------------------------------------------------------
  // Sections with overlap.

  /** Two full sentences, which the boundary takes apart. */
  predicate HoldsTwoFullSentences(block: ParsedBlock, chunkSize: nat, boundary: string -> seq<string>) {
    var full := FullSentence(chunkSize);
    block.text == full + " " + full && Sentences(boundary(block.text)) == [full, full]
  }

  lemma FlattenOne(block: ParsedBlock, parts: seq<string>)
    ensures Flatten([block], [parts]) == PartBlocks(block, parts)
  {
    assert [block][..0] == [] && [parts][..0] == [];
    assert Flatten([], []) == [] && [] + PartBlocks(block, parts) == PartBlocks(block, parts);
  }

  lemma OneBlockText(block: ParsedBlock)
    ensures Join(Texts([block])) == block.text && JoinedLength([block]) == |block.text|
  {
    assert [block][1..] == [] && TextTotal([block][1..]) == 0 && Texts([block][1..]) == [];
    assert Texts([block]) == [block.text];
  }

  lemma TwoBlocksLength(a: ParsedBlock, b: ParsedBlock)
    ensures JoinedLength([a, b]) == |a.text| + 2 + |b.text|
  {
    assert [a, b][1..] == [b] && TextTotal([a, b]) == |a.text| + TextTotal([b]);
    OneBlockText(b);
  }

  lemma WindowsGrow(pieces: seq<ParsedBlock>, ws: seq<Span>, p: nat, chunkSize: nat, overlap: nat)
    requires Windows(pieces, ws, chunkSize, overlap)
    ensures p < |ws| ==> ws[p].lo < ws[p].hi <= |pieces|
    ensures p + 1 < |ws| ==> ws[p].lo < ws[p + 1].lo <= ws[p].hi < ws[p + 1].hi
  {
    var q := p + 1;
    if q < |ws| {
      assert Follows(pieces, ws[p], ws[q], chunkSize, overlap);
    }
  }

  lemma OneWindow(pieces: seq<ParsedBlock>, ws: seq<Span>, chunkSize: nat, overlap: nat)
    requires |pieces| == 1 && Windows(pieces, ws, chunkSize, overlap) && EndOf(ws) == 1
    ensures ws == [Span(0, 1)]
  {
    WindowsGrow(pieces, ws, 0, chunkSize, overlap);
    WindowsGrow(pieces, ws, 1, chunkSize, overlap);
  }

  /** The two pieces do not fit into one window. */
  lemma TwoWindows(pieces: seq<ParsedBlock>, ws: seq<Span>, chunkSize: nat, overlap: nat)
    requires |pieces| == 2 && |pieces[0].text| + |pieces[1].text| >= chunkSize
    requires Windows(pieces, ws, chunkSize, overlap) && EndOf(ws) == 2
    ensures ws == [Span(0, 1), Span(1, 2)]
  {
    assert pieces[0..2] == [pieces[0], pieces[1]];
    TwoBlocksLength(pieces[0], pieces[1]);
    assert FitsOrSingle(pieces, ws[0], chunkSize) && ws[0].hi == 1;
    WindowsGrow(pieces, ws, 0, chunkSize, overlap);
    WindowsGrow(pieces, ws, 1, chunkSize, overlap);
    WindowsGrow(pieces, ws, 2, chunkSize, overlap);
  }

  lemma TwoWindowsFollow(pieces: seq<ParsedBlock>, chunkSize: nat, overlap: nat)
    requires |pieces| == 2 && |pieces[0].text| + |pieces[1].text| >= chunkSize
    ensures Windows(pieces, [Span(0, 1), Span(1, 2)], chunkSize, overlap)
  {
    assert pieces[0..2] == [pieces[0], pieces[1]];
    TwoBlocksLength(pieces[0], pieces[1]);
    assert Follows(pieces, Span(0, 1), Span(1, 2), chunkSize, overlap);
  }

  lemma TwoFullSentencesSplit(block: ParsedBlock, parts: seq<string>, chunkSize: nat, overlap: nat,
                               boundary: string -> seq<string>)
    requires 0 < overlap < chunkSize && HoldsTwoFullSentences(block, chunkSize, boundary)
    ensures SplitsInto(block.text, parts, chunkSize, overlap, boundary) <==> parts == TwoPieces(chunkSize, overlap)
  {
    var full := FullSentence(chunkSize);
    assert PacksBySentence([full, full], chunkSize) && |block.text| > chunkSize;
    TwoPiecesArePacked(chunkSize, overlap);
    if PackedSomehow(parts, [full, full], chunkSize, overlap) {
      var spans :| Packed(parts, spans, [full, full], chunkSize, overlap, s => Repeated(s, overlap)) && EndOf(spans) == 2;
      BoundIsReached(parts, spans, chunkSize, overlap);
    }
  }

  lemma TwoPiecesLength(chunkSize: nat, overlap: nat)
    requires 0 < overlap < chunkSize
    ensures var parts := TwoPieces(chunkSize, overlap); |parts| == 2 && |parts[0]| == chunkSize && |parts[1]| == chunkSize + overlap + 1
  {
    FullSentenceRepeats(chunkSize, overlap);
  }

  lemma TwoPiecesAreTwoChunks(pieces: seq<ParsedBlock>, ws: seq<Span>, chunks: seq<DocumentChunk>, start: nat, chunkSize: nat, overlap: nat)
    requires |pieces| == 2 && |pieces[0].text| >= chunkSize
    requires Windows(pieces, ws, chunkSize, overlap) && EndOf(ws) == 2 && ChunksOf(chunks, pieces, ws, start)
    ensures |chunks| == 2 && |chunks[1].text| == |pieces[1].text|
  {
    TwoWindows(pieces, ws, chunkSize, overlap);
    assert pieces[1..2] == [pieces[1]];
    OneBlockText(pieces[1]);
  }

  /** With any overlap, whatever is made of two full sentences has a chunk longer than the chunk size by the overlap and one. */
  lemma TwoFullSentencesExceed(block: ParsedBlock, chunks: seq<DocumentChunk>, start: nat, chunkSize: nat, overlap: nat,
                               boundary: string -> seq<string>)
    requires 0 < overlap < chunkSize && HoldsTwoFullSentences(block, chunkSize, boundary)
    requires SectionChunks([block], chunks, start, chunkSize, overlap, boundary)
    ensures |chunks| == 2 && |chunks[1].text| == chunkSize + overlap + 1
  {
    var parts, ws, pieces := OneBlockSection(block, chunks, start, chunkSize, overlap, boundary);
    TwoFullSentencesSplit(block, parts, chunkSize, overlap, boundary);
    TwoPiecesLength(chunkSize, overlap);
    TwoPiecesAreTwoChunks(pieces, ws, chunks, start, chunkSize, overlap);
  }

  lemma OneBlockSection(block: ParsedBlock, chunks: seq<DocumentChunk>, start: nat, chunkSize: nat, overlap: nat, boundary: string -> seq<string>)
    returns (parts: seq<string>, ws: seq<Span>, pieces: seq<ParsedBlock>)
    requires overlap < chunkSize && SectionChunks([block], chunks, start, chunkSize, overlap, boundary)
    ensures SplitsInto(block.text, parts, chunkSize, overlap, boundary) && pieces == PartBlocks(block, parts)
    ensures Windows(pieces, ws, chunkSize, overlap) && EndOf(ws) == |pieces| && ChunksOf(chunks, pieces, ws, start)
  {
    var all, windows :| && AllSplit([block], all, chunkSize, overlap, boundary)
                        && Windows(Flatten([block], all), windows, chunkSize, overlap) && EndOf(windows) == |Flatten([block], all)|
                        && ChunksOf(chunks, Flatten([block], all), windows, start);
    assert SplitsInto([block][0].text, all[0], chunkSize, overlap, boundary) && all == [all[0]];
    FlattenOne(block, all[0]);
    parts, ws, pieces := all[0], windows, PartBlocks(block, all[0]);
  }

  lemma TwoChunks(pieces: seq<ParsedBlock>, start: nat) returns (chunks: seq<DocumentChunk>)
    requires |pieces| == 2
    ensures ChunksOf(chunks, pieces, [Span(0, 1), Span(1, 2)], start)
  {
    chunks := [MakeChunk(pieces[0..1], start), MakeChunk(pieces[1..2], start + 1)];
  }

  /** And something is made of them. */
  lemma TwoFullSentencesAreChunked(block: ParsedBlock, start: nat, chunkSize: nat, overlap: nat, boundary: string -> seq<string>)
    returns (chunks: seq<DocumentChunk>)
    requires 0 < overlap < chunkSize && HoldsTwoFullSentences(block, chunkSize, boundary)
    ensures SectionChunks([block], chunks, start, chunkSize, overlap, boundary)
  {
    var parts, ws := TwoPieces(chunkSize, overlap), [Span(0, 1), Span(1, 2)];
    TwoFullSentencesSplit(block, parts, chunkSize, overlap, boundary);
    TwoPiecesLength(chunkSize, overlap);
    var pieces := PartBlocks(block, parts);
    TwoWindowsFollow(pieces, chunkSize, overlap);
    chunks := TwoChunks(pieces, start);
    OneBlockIsChunked(block, parts, ws, chunks, start, chunkSize, overlap, boundary);
  }

  lemma OneBlockIsChunked(block: ParsedBlock, parts: seq<string>, ws: seq<Span>, chunks: seq<DocumentChunk>, start: nat, chunkSize: nat, overlap: nat,
                          boundary: string -> seq<string>)
    requires overlap < chunkSize && SplitsInto(block.text, parts, chunkSize, overlap, boundary)
    requires var pieces := PartBlocks(block, parts);
             Windows(pieces, ws, chunkSize, overlap) && EndOf(ws) == |pieces| && ChunksOf(chunks, pieces, ws, start)
    ensures SectionChunks([block], chunks, start, chunkSize, overlap, boundary)
  {
    assert AllSplit([block], [parts], chunkSize, overlap, boundary);
    FlattenOne(block, parts);
  }

  /** Every way to chunk any section stays within the size. */
  ghost predicate SizeIsKept(chunkSize: nat, overlap: nat)
    requires overlap < chunkSize
  {
    forall blocks, chunks, start, boundary ::
      SectionChunks(blocks, chunks, start, chunkSize, overlap, boundary) ==> AllWithin(chunks, chunkSize)
  }

  lemma FullSentencesAreSentences(n: nat)
    requires n > 0
    ensures Sentences([FullSentence(n), FullSentence(n)]) == [FullSentence(n), FullSentence(n)]
  {
    var full := FullSentence(n);
    TrimmedStripsToItself(full);
    assert [full, full][1..] == [full] && [full][1..] == [];
    assert Sentences([full]) == [full] + [] == [full];
    assert [full] + [full] == [full, full];
  }

  /** The chunks of every section stay within the chunk size exactly when there is no overlap. */
  lemma SizeIsKeptExactlyWithoutOverlap(chunkSize: nat, overlap: nat)
    requires overlap < chunkSize
    ensures SizeIsKept(chunkSize, overlap) <==> overlap == 0
  {
    if overlap == 0 {
      forall blocks, chunks, start, boundary | SectionChunks(blocks, chunks, start, chunkSize, 0, boundary)
        ensures AllWithin(chunks, chunkSize)
      {
        NoOverlapKeepsTheSize(blocks, chunks, start, chunkSize, boundary);
      }
    } else {
      var blocks, chunks, boundary := SizeIsExceeded(chunkSize, overlap);
      assert |chunks[1].text| > chunkSize;
    }
  }

  lemma SizeIsExceeded(chunkSize: nat, overlap: nat) returns (blocks: seq<ParsedBlock>, chunks: seq<DocumentChunk>, boundary: string -> seq<string>)
    requires 0 < overlap < chunkSize
    ensures SectionChunks(blocks, chunks, 0, chunkSize, overlap, boundary) && |chunks| == 2 && |chunks[1].text| > chunkSize
  {
    var full := FullSentence(chunkSize);
    var block := ParsedBlock(full + " " + full, 1, [], false, false);
    blocks, boundary := [block], (text: string) => [full, full];
    FullSentencesAreSentences(chunkSize);
    assert boundary(block.text) == [full, full];
    chunks := TwoFullSentencesAreChunked(block, 0, chunkSize, overlap, boundary);
    TwoFullSentencesExceed(block, chunks, 0, chunkSize, overlap, boundary);
  }

  // ---------------------------------------------------------------------------------------
  // Pages.

  /** A block that needs no splitting is one chunk. */
  lemma ShortBlockIsOneChunk(block: ParsedBlock, chunks: seq<DocumentChunk>, start: nat, chunkSize: nat, overlap: nat,
                             boundary: string -> seq<string>)
    requires overlap < chunkSize && |block.text| <= chunkSize
    requires SectionChunks([block], chunks, start, chunkSize, overlap, boundary)
    ensures |chunks| == 1 && chunks[0].text == block.text && chunks[0].section == block.section
  {
    var parts, ws, pieces := OneBlockSection(block, chunks, start, chunkSize, overlap, boundary);
    assert pieces == [block];
    OneWindow(pieces, ws, chunkSize, overlap);
    assert pieces[0..1] == [block];
    OneBlockText(block);
  }

  lemma LastGroupIsNotEmpty(groups: seq<seq<ParsedBlock>>)
    requires Runs(groups) && groups != []
    ensures ConcatBlocks(groups) != []
  {
    assert OneSection(groups[|groups| - 1]);
  }

  lemma NoGroupsOfNothing(groups: seq<seq<ParsedBlock>>)
    requires Runs(groups) && ConcatBlocks(groups) == []
    ensures groups == []
  {
    if groups != [] {
      LastGroupIsNotEmpty(groups);
      assert false;
    }
  }

  lemma LastBlocks(rest: seq<ParsedBlock>, group: seq<ParsedBlock>, front: seq<ParsedBlock>, block: ParsedBlock)
    requires group != [] && rest + group == front + [block]
    ensures group[|group| - 1] == block
    ensures |group| > 1 ==> front != [] && group[|group| - 2] == front[|front| - 1]
    ensures |group| == 1 ==> rest == front
  {
    var all := rest + group;
    assert all[|all| - 1] == group[|group| - 1] && all[|all| - 1] == block;
    if |group| > 1 {
      assert all[|all| - 2] == group[|group| - 2] && all[|all| - 2] == front[|front| - 1];
    } else {
      assert rest == all[..|rest|] && front == all[..|front|];
    }
  }

  lemma LastGroup(groups: seq<seq<ParsedBlock>>, front: seq<ParsedBlock>, block: ParsedBlock)
    requires Runs(groups) && ConcatBlocks(groups) == front + [block]
    requires front != [] ==> front[|front| - 1].section != block.section
    ensures groups != [] && groups[|groups| - 1] == [block]
    ensures Runs(groups[..|groups| - 1]) && ConcatBlocks(groups[..|groups| - 1]) == front
  {
    var last := |groups| - 1;
    var rest, group := ConcatBlocks(groups[..last]), groups[last];
    assert OneSection(group);
    LastBlocks(rest, group, front, block);
    assert group == [block];
    RunsOfFewer(groups, last);
  }

  lemma RunsOfFewer(groups: seq<seq<ParsedBlock>>, n: nat)
    requires Runs(groups) && n <= |groups|
    ensures Runs(groups[..n])
  {
    var fewer := groups[..n];
    forall g | 0 <= g < n
      ensures OneSection(fewer[g])
    {
      assert fewer[g] == groups[g];
    }
    forall f, g | 0 <= f && g == f + 1 < n
      ensures fewer[f][0].section != fewer[g][0].section
    {
      assert fewer[f] == groups[f] && fewer[g] == groups[g];
    }
  }

  /** Two blocks of different sections are two groups. */
  lemma TwoGroups(groups: seq<seq<ParsedBlock>>, a: ParsedBlock, b: ParsedBlock)
    requires Runs(groups) && ConcatBlocks(groups) == [a] + [b] && a.section != b.section
    ensures |groups| == 2 && groups[0] == [a] && groups[1] == [b]
  {
    LastGroup(groups, [a], b);
    var front := groups[..|groups| - 1];
    OneGroup(front, a);
    assert groups[0] == front[0];
  }

  lemma OneGroup(groups: seq<seq<ParsedBlock>>, a: ParsedBlock)
    requires Runs(groups) && ConcatBlocks(groups) == [a]
    ensures |groups| == 1 && groups[0] == [a]
  {
    assert [a] == [] + [a];
    LastGroup(groups, [], a);
    NoGroupsOfNothing(groups[..|groups| - 1]);
  }

  /** The section chunks a page's chunks are merged from. */
  lemma PageSections(blocks: seq<ParsedBlock>, chunks: seq<DocumentChunk>, chunkSize: nat, overlap: nat, boundary: string -> seq<string>,
                     norm: string -> string)
    returns (groups: seq<seq<ParsedBlock>>, parts: seq<seq<DocumentChunk>>, sections: seq<DocumentChunk>)
    requires overlap < chunkSize && PageChunked(blocks, chunks, chunkSize, overlap, boundary, norm)
    ensures Finished(groups, parts, sections, WindowSpec(chunkSize, overlap, boundary)) && ConcatBlocks(groups) == blocks
    ensures chunks == RunChunks(MergeRuns(sections, Min(MIN_MERGED_CHUNK_CHARS, chunkSize), norm))
  {
    groups, parts, sections :|
      && Finished(groups, parts, sections, WindowSpec(chunkSize, overlap, boundary)) && ConcatBlocks(groups) == blocks
      && chunks == RunChunks(MergeRuns(sections, Min(MIN_MERGED_CHUNK_CHARS, chunkSize), norm))
      && PageKeys(chunks, norm) == PageKeys(sections, norm);
  }

  lemma TwoParts(groups: seq<seq<ParsedBlock>>, parts: seq<seq<DocumentChunk>>, spec: GroupSpec)
    requires |groups| == 2 && GroupsChunked(groups, parts, spec)
    ensures |parts| == 2 && spec(groups[0], parts[0], 0) && spec(groups[1], parts[1], |parts[0]|)
    ensures ConcatChunks(parts) == parts[0] + parts[1]
  {
    var g, p := groups[..1], parts[..1];
    assert g[..0] == [] && p[..0] == [] && g[0] == groups[0] && p[0] == parts[0];
    assert ConcatChunks(p) == [] + parts[0] == parts[0];
    assert GroupsChunked(g, p, spec);
  }

  lemma TwoSectionChunks(sections: seq<DocumentChunk>, groups: seq<seq<ParsedBlock>>, parts: seq<seq<DocumentChunk>>, a: ParsedBlock, b: ParsedBlock,
                         chunkSize: nat, overlap: nat, boundary: string -> seq<string>)
    requires overlap < chunkSize && |a.text| <= chunkSize && |b.text| <= chunkSize && a.section != b.section
    requires Finished(groups, parts, sections, WindowSpec(chunkSize, overlap, boundary)) && ConcatBlocks(groups) == [a] + [b]
    ensures |sections| == 2 && sections[0].text == a.text && sections[0].section == a.section && sections[1].text == b.text
  {
    TwoGroups(groups, a, b);
    TwoParts(groups, parts, WindowSpec(chunkSize, overlap, boundary));
    ShortBlockIsOneChunk(a, parts[0], 0, chunkSize, overlap, boundary);
    ShortBlockIsOneChunk(b, parts[1], 1, chunkSize, overlap, boundary);
  }

  lemma TwoSectionsMerge(sections: seq<DocumentChunk>, a: ParsedBlock, b: ParsedBlock, minimum: nat, norm: string -> string)
    requires |sections| == 2 && sections[0].text == a.text && sections[0].section == a.section && sections[1].text == b.text
    requires IsNormalizer(norm) && IsParagraph(a.text) && IsParagraph(b.text)
    requires norm(a.text) != [] && norm(b.text) != [] && norm(a.text) != norm(b.text)
    requires norm(a.text) == norm(a.section) || |norm(a.text)| < minimum
    ensures var merged := RunChunks(MergeRuns(sections, minimum, norm)); |merged| == 1 && |merged[0].text| == |a.text| + 2 + |b.text|
  {
    assert sections == [sections[0], sections[1]];
    TwoMergeIntoOne(sections[0], sections[1], minimum, norm);
  }

  /**
   * A block that is no more than its section's heading, or shorter than the merge minimum, before a full block of
   * another section: whatever the overlap, also without any, the page is one chunk, longer than the chunk size.
   */
  lemma MergingExceedsTheSize(a: ParsedBlock, b: ParsedBlock, chunks: seq<DocumentChunk>, chunkSize: nat, overlap: nat,
                              boundary: string -> seq<string>, norm: string -> string)
    requires overlap < chunkSize && IsNormalizer(norm) && PageChunked([a, b], chunks, chunkSize, overlap, boundary, norm)
    requires a.section != b.section && IsParagraph(a.text) && IsParagraph(b.text)
    requires norm(a.text) != [] && norm(b.text) != [] && norm(a.text) != norm(b.text)
    requires norm(a.text) == norm(a.section) || |norm(a.text)| < Min(MIN_MERGED_CHUNK_CHARS, chunkSize)
    requires |a.text| <= chunkSize == |b.text|
    ensures |chunks| == 1 && |chunks[0].text| == |a.text| + 2 + chunkSize
  {
    var groups, parts, sections := PageSections([a, b], chunks, chunkSize, overlap, boundary, norm);
    assert [a, b] == [a] + [b];
    TwoSectionChunks(sections, groups, parts, a, b, chunkSize, overlap, boundary);
    TwoSectionsMerge(sections, a, b, Min(MIN_MERGED_CHUNK_CHARS, chunkSize), norm);
  }

  lemma LastGroupChunked(groups: seq<seq<ParsedBlock>>, parts: seq<seq<DocumentChunk>>, spec: GroupSpec)
    requires groups != [] && GroupsChunked(groups, parts, spec)
    ensures var n := |groups| - 1;
            && |parts| == n + 1 && GroupsChunked(groups[..n], parts[..n], spec)
            && spec(groups[n], parts[n], |ConcatChunks(parts[..n])|) && ConcatChunks(parts) == ConcatChunks(parts[..n]) + parts[n]
  {
  }

  lemma SpecIsWithin(group: seq<ParsedBlock>, chunks: seq<DocumentChunk>, start: nat, chunkSize: nat, boundary: string -> seq<string>)
    requires chunkSize > 0 && WindowSpec(chunkSize, 0, boundary)(group, chunks, start)
    ensures AllWithin(chunks, chunkSize)
  {
    NoOverlapKeepsTheSize(group, chunks, start, chunkSize, boundary);
  }

  lemma MoreWithin(a: seq<DocumentChunk>, b: seq<DocumentChunk>, limit: nat)
    requires AllWithin(a, limit) && AllWithin(b, limit)
    ensures AllWithin(a + b, limit)
  {
  }

  lemma {:induction false} GroupsAreWithin(groups: seq<seq<ParsedBlock>>, parts: seq<seq<DocumentChunk>>, chunkSize: nat, boundary: string -> seq<string>)
    requires chunkSize > 0 && GroupsChunked(groups, parts, WindowSpec(chunkSize, 0, boundary))
    ensures AllWithin(ConcatChunks(parts), chunkSize)
  {
    if groups != [] {
      var n := |groups| - 1;
      var spec := WindowSpec(chunkSize, 0, boundary);
      LastGroupChunked(groups, parts, spec);
      GroupsAreWithin(groups[..n], parts[..n], chunkSize, boundary);
      SpecIsWithin(groups[n], parts[n], |ConcatChunks(parts[..n])|, chunkSize, boundary);
      MoreWithin(ConcatChunks(parts[..n]), parts[n], chunkSize);
    }
  }

  /** Without overlap the chunks of a page stay within the size exactly when the runs merged have room for their distinct paragraphs. */
  lemma PageKeepsTheSizeExactlyWhen(blocks: seq<ParsedBlock>, chunks: seq<DocumentChunk>, chunkSize: nat,
                                    boundary: string -> seq<string>, norm: string -> string)
    returns (groups: seq<seq<ParsedBlock>>, parts: seq<seq<DocumentChunk>>, sections: seq<DocumentChunk>)
    requires chunkSize > 0 && IsNormalizer(norm) && PageChunked(blocks, chunks, chunkSize, 0, boundary, norm)
    ensures Finished(groups, parts, sections, WindowSpec(chunkSize, 0, boundary)) && ConcatBlocks(groups) == blocks
    ensures chunks == RunChunks(MergeRuns(sections, Min(MIN_MERGED_CHUNK_CHARS, chunkSize), norm))
    ensures AllWithin(chunks, chunkSize) <==> RunsFit(sections, Min(MIN_MERGED_CHUNK_CHARS, chunkSize), chunkSize, norm)
  {
    groups, parts, sections := PageSections(blocks, chunks, chunkSize, 0, boundary, norm);
    GroupsAreWithin(groups, parts, chunkSize, boundary);
    MergedChunksFitExactlyWhen(sections, Min(MIN_MERGED_CHUNK_CHARS, chunkSize), chunkSize, norm);
  }
}
