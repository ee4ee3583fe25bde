/** The whole pipeline: validate the settings, chunk page by page and section by section, merge, deduplicate, renumber. */
module DocumentChunker {
  import opened Wrappers
  import opened LongText
  import opened BlockChunker
  import opened ChunkMerger

  datatype ParsedPage = ParsedPage(number: nat, blocks: seq<ParsedBlock>)

  datatype SettingsError = ChunkSizeNotPositive | OverlapNegative | OverlapTooLarge

  function ConcatBlocks(groups: seq<seq<ParsedBlock>>): seq<ParsedBlock> {
    if groups == [] then [] else ConcatBlocks(groups[..|groups| - 1]) + groups[|groups| - 1]
  }

  function ConcatChunks(parts: seq<seq<DocumentChunk>>): seq<DocumentChunk> {
    if parts == [] then [] else ConcatChunks(parts[..|parts| - 1]) + parts[|parts| - 1]
  }

  predicate OneSection(group: seq<ParsedBlock>) {
    group != [] && forall k :: 0 <= k < |group| ==> group[k].section == group[0].section
  }

  /** The longest runs of blocks with one section. */
  ghost predicate Runs(groups: seq<seq<ParsedBlock>>) {
    && (forall g :: 0 <= g < |groups| ==> OneSection(groups[g]))
    && (forall f, g :: 0 <= f && g == f + 1 < |groups| ==> groups[f][0].section != groups[g][0].section)
  }

  /** The chunks of one group: its greedy windows, all of bounded length. */
  ghost predicate ChunkedAs(group: seq<ParsedBlock>, chunks: seq<DocumentChunk>, start: nat, chunkSize: nat, overlap: nat,
                            boundary: string -> seq<string>)
    requires overlap < chunkSize
  {
    && SectionChunks(group, chunks, start, chunkSize, overlap, boundary)
    && (forall p :: 0 <= p < |chunks| ==> |chunks[p].text| <= chunkSize + overlap + 1)
  }

  /** How the chunks of a group, numbered from some start, relate to the group. */
  type GroupSpec = (seq<ParsedBlock>, seq<DocumentChunk>, nat) -> bool

  ghost function WindowSpec(chunkSize: nat, overlap: nat, boundary: string -> seq<string>): GroupSpec
    requires overlap < chunkSize
  {
    (group, chunks, start: nat) => ChunkedAs(group, chunks, start, chunkSize, overlap, boundary)
  }

  /** Whatever is promised of a group's chunks implies the specification. */
  ghost predicate Implied(spec: GroupSpec, chunkSize: nat, overlap: nat, boundary: string -> seq<string>)
    requires overlap < chunkSize
  {
    forall group, chunks, start {:trigger ChunkedAs(group, chunks, start, chunkSize, overlap, boundary)} ::
      ChunkedAs(group, chunks, start, chunkSize, overlap, boundary) ==> spec(group, chunks, start)
  }

  /** Every group chunked, numbered from where the groups before it stopped. */
  ghost predicate GroupsChunked(groups: seq<seq<ParsedBlock>>, parts: seq<seq<DocumentChunk>>, spec: GroupSpec) {
    if groups == [] then parts == []
    else
      var n := |groups| - 1;
      && |parts| == |groups|
      && GroupsChunked(groups[..n], parts[..n], spec)
      && spec(groups[n], parts[n], |ConcatChunks(parts[..n])|)
  }

  lemma GroupChunked(groups: seq<seq<ParsedBlock>>, parts: seq<seq<DocumentChunk>>, group: seq<ParsedBlock>, chunks: seq<DocumentChunk>,
                     spec: GroupSpec)
    requires GroupsChunked(groups, parts, spec) && spec(group, chunks, |ConcatChunks(parts)|)
    ensures GroupsChunked(groups + [group], parts + [chunks], spec)
    ensures ConcatChunks(parts + [chunks]) == ConcatChunks(parts) + chunks
  {
    assert (groups + [group])[..|groups|] == groups && (parts + [chunks])[..|parts|] == parts;
  }

  /** The group being filled: its blocks share the active section. */
  predicate Filling(group: seq<ParsedBlock>, groups: seq<seq<ParsedBlock>>, active: string) {
    && (forall k :: 0 <= k < |group| ==> group[k].section == active)
    && (group != [] && groups != [] && groups[|groups| - 1] != [] ==> groups[|groups| - 1][0].section != active)
  }

  lemma CloseGroup(groups: seq<seq<ParsedBlock>>, group: seq<ParsedBlock>, active: string)
    requires Runs(groups) && group != [] && Filling(group, groups, active)
    ensures Runs(groups + [group]) && ConcatBlocks(groups + [group]) == ConcatBlocks(groups) + group
  {
    var groups' := groups + [group];
    assert groups'[..|groups|] == groups;
    forall f, g | 0 <= f && g == f + 1 < |groups'|
      ensures groups'[f][0].section != groups'[g][0].section
    {
      assert groups'[f] == groups[f] && (g < |groups| ==> groups'[g] == groups[g]);
    }
  }

  /** The finished groups of a page and their chunks, numbered through. */
  ghost predicate Finished(groups: seq<seq<ParsedBlock>>, parts: seq<seq<DocumentChunk>>, chunks: seq<DocumentChunk>, spec: GroupSpec) {
    && Runs(groups) && GroupsChunked(groups, parts, spec)
    && chunks == ConcatChunks(parts) && forall p :: 0 <= p < |chunks| ==> chunks[p].chunkIndex == p
  }

  lemma FinishedGrows(groups: seq<seq<ParsedBlock>>, parts: seq<seq<DocumentChunk>>, chunks: seq<DocumentChunk>, spec: GroupSpec,
                      group: seq<ParsedBlock>, more: seq<DocumentChunk>)
    requires Finished(groups, parts, chunks, spec) && Runs(groups + [group]) && spec(group, more, |chunks|)
    requires forall p :: 0 <= p < |more| ==> more[p].chunkIndex == |chunks| + p
    ensures Finished(groups + [group], parts + [more], chunks + more, spec)
  {
    GroupChunked(groups, parts, group, more, spec);
  }

  /** Chunk a group whose section differs from the last finished one, and append its chunks. */
  method FinishGroup(ghost groups: seq<seq<ParsedBlock>>, ghost parts: seq<seq<DocumentChunk>>, chunks: seq<DocumentChunk>,
                     group: seq<ParsedBlock>, ghost active: string, chunkSize: nat, overlap: nat, boundary: string -> seq<string>,
                     ghost spec: GroupSpec)
    returns (all: seq<DocumentChunk>, ghost added: seq<DocumentChunk>)
    requires overlap < chunkSize && Implied(spec, chunkSize, overlap, boundary)
    requires Finished(groups, parts, chunks, spec)
    requires group != [] && Filling(group, groups, active)
    ensures Finished(groups + [group], parts + [added], all, spec)
    ensures ConcatBlocks(groups + [group]) == ConcatBlocks(groups) + group
  {
    var more := ChunkBlockGroup(group, chunkSize, overlap, |chunks|, boundary);
    assert ChunkedAs(group, more, |chunks|, chunkSize, overlap, boundary);
    CloseGroup(groups, group, active);
    FinishedGrows(groups, parts, chunks, spec, group, more);
    all, added := chunks + more, more;
  }

  lemma KeepFilling(group: seq<ParsedBlock>, groups: seq<seq<ParsedBlock>>, active: string, block: ParsedBlock)
    requires Filling(group, groups, active) && (group == [] ==> groups == []) && (group != [] ==> block.section == active)
    ensures Filling(group + [block], groups, block.section)
  {
  }

  lemma StartFilling(group: seq<ParsedBlock>, groups: seq<seq<ParsedBlock>>, active: string, block: ParsedBlock)
    requires Filling(group, groups, active) && group != [] && block.section != active
    ensures Filling([block], groups + [group], block.section)
  {
  }

  lemma TakeNext(blocks: seq<ParsedBlock>, from: nat, i: nat)
    requires from <= i < |blocks|
    ensures blocks[from..i] + [blocks[i]] == blocks[from..i + 1]
  {
  }

  lemma SplitAt(blocks: seq<ParsedBlock>, from: nat, i: nat)
    requires from <= i <= |blocks|
    ensures blocks[..from] + blocks[from..i] == blocks[..i]
  {
  }

  /** The loop's state after `i` blocks: the group being filled holds the blocks from `from` on. */
  ghost predicate Collecting(blocks: seq<ParsedBlock>, from: nat, i: nat, groups: seq<seq<ParsedBlock>>, group: seq<ParsedBlock>,
                             active: string) {
    && from <= i <= |blocks| && group == blocks[from..i]
    && (i == 0 ==> groups == []) && (i > 0 ==> from < i)
    && ConcatBlocks(groups) == blocks[..from]
    && Filling(group, groups, active)
  }

  lemma CollectingKeeps(blocks: seq<ParsedBlock>, from: nat, i: nat, groups: seq<seq<ParsedBlock>>, group: seq<ParsedBlock>, active: string)
    requires Collecting(blocks, from, i, groups, group, active) && i < |blocks|
    requires group != [] ==> blocks[i].section == active
    ensures Collecting(blocks, from, i + 1, groups, group + [blocks[i]], blocks[i].section)
  {
    TakeNext(blocks, from, i);
    KeepFilling(group, groups, active, blocks[i]);
  }

  lemma CollectingStarts(blocks: seq<ParsedBlock>, from: nat, i: nat, groups: seq<seq<ParsedBlock>>, group: seq<ParsedBlock>, active: string)
    requires Collecting(blocks, from, i, groups, group, active) && i < |blocks|
    requires group != [] && blocks[i].section != active
    ensures ConcatBlocks(groups + [group]) == ConcatBlocks(groups) + group ==>
              Collecting(blocks, i, i + 1, groups + [group], [blocks[i]], blocks[i].section)
  {
    SplitAt(blocks, from, i);
    TakeNext(blocks, i, i);
    StartFilling(group, groups, active, blocks[i]);
  }

  /** The chunks of one page before merging: its runs of one section, chunked in order and numbered through. */
  method ChunkSections(blocks: seq<ParsedBlock>, chunkSize: nat, overlap: nat, boundary: string -> seq<string>, ghost spec: GroupSpec)
    returns (chunks: seq<DocumentChunk>, ghost groups: seq<seq<ParsedBlock>>, ghost parts: seq<seq<DocumentChunk>>)
    requires overlap < chunkSize && Implied(spec, chunkSize, overlap, boundary)
    ensures Finished(groups, parts, chunks, spec) && ConcatBlocks(groups) == blocks
    ensures exists gs, ps :: Finished(gs, ps, chunks, spec) && ConcatBlocks(gs) == blocks
  {
    chunks, groups, parts := [], [], [];
    var group: seq<ParsedBlock> := [];
    var active := [];
    ghost var from := 0;
    for i := 0 to |blocks|
      invariant Collecting(blocks, from, i, groups, group, active)
      invariant Finished(groups, parts, chunks, spec)
    {
      var block := blocks[i];
      if group != [] && block.section != active {
        CollectingStarts(blocks, from, i, groups, group, active);
        ghost var added;
        chunks, added := FinishGroup(groups, parts, chunks, group, active, chunkSize, overlap, boundary, spec);
        groups, parts, from := groups + [group], parts + [added], i;
        group := [block];
      } else {
        CollectingKeeps(blocks, from, i, groups, group, active);
        group := group + [block];
      }
      active := block.section;
    }
    SplitAt(blocks, from, |blocks|);
    assert blocks[..|blocks|] == blocks;
    if group != [] {
      ghost var added;
      chunks, added := FinishGroup(groups, parts, chunks, group, active, chunkSize, overlap, boundary, spec);
      groups, parts := groups + [group], parts + [added];
    }
  }

  /** What a page's chunks are: its sections' chunks, merged without losing a paragraph, none left tiny. */
  ghost predicate PageChunked(blocks: seq<ParsedBlock>, chunks: seq<DocumentChunk>, chunkSize: nat, overlap: nat,
                              boundary: string -> seq<string>, norm: string -> string)
    requires overlap < chunkSize
  {
    && (exists groups, parts, sections ::
          && Finished(groups, parts, sections, WindowSpec(chunkSize, overlap, boundary)) && ConcatBlocks(groups) == blocks
          && chunks == RunChunks(MergeRuns(sections, Min(MIN_MERGED_CHUNK_CHARS, chunkSize), norm))
          && PageKeys(chunks, norm) == PageKeys(sections, norm))
    && (|chunks| <= 1 || AllLongEnough(chunks, Min(MIN_MERGED_CHUNK_CHARS, chunkSize), norm))
  }

  method ChunkPage(blocks: seq<ParsedBlock>, chunkSize: nat, overlap: nat, boundary: string -> seq<string>, norm: string -> string)
    returns (chunks: seq<DocumentChunk>)
    requires overlap < chunkSize && IsNormalizer(norm)
    ensures PageChunked(blocks, chunks, chunkSize, overlap, boundary, norm)
  {
    ghost var groups, parts;
    var sections;
    sections, groups, parts := ChunkSections(blocks, chunkSize, overlap, boundary, WindowSpec(chunkSize, overlap, boundary));
    chunks := MergeTinyPageChunks(sections, Min(MIN_MERGED_CHUNK_CHARS, chunkSize), norm);
  }

  /** What an indexed document guarantees: numbered from zero, each chunk worth indexing, no content twice. */
  ghost predicate Indexed(chunks: seq<DocumentChunk>, norm: string -> string) {
    && (forall k :: 0 <= k < |chunks| ==> chunks[k].chunkIndex == k && Indexable(chunks[k], norm))
    && (forall j, k :: 0 <= j < k < |chunks| ==> norm(chunks[j].text) != norm(chunks[k].text))
  }

  /** The content key of an indexable chunk of any page is the key of some chunk of the result. */
  ghost predicate CoversIndexable(result: seq<DocumentChunk>, chunks: seq<DocumentChunk>, norm: string -> string) {
    forall i :: 0 <= i < |chunks| && Indexable(chunks[i], norm) ==>
                  exists k :: 0 <= k < |result| && norm(result[k].text) == norm(chunks[i].text)
  }

  /** The result is a selection of the chunks, in order, with nothing but the index changed. */
  ghost predicate DrawnFrom(result: seq<DocumentChunk>, chunks: seq<DocumentChunk>, at: seq<nat>) {
    && |at| == |result|
    && (forall k :: 0 <= k < |result| ==> at[k] < |chunks| && result[k] == chunks[at[k]].(chunkIndex := k))
    && (forall j, k :: 0 <= j < k < |at| ==> at[j] < at[k])
  }

  /** The kept chunks with new numbers. */
  ghost predicate Renumbered(kept: seq<DocumentChunk>, result: seq<DocumentChunk>) {
    |result| == |kept| && forall k :: 0 <= k < |kept| ==> result[k] == kept[k].(chunkIndex := k)
  }

  method Renumber(kept: seq<DocumentChunk>) returns (result: seq<DocumentChunk>)
    ensures Renumbered(kept, result)
  {
    result := [];
    for k := 0 to |kept|
      invariant |result| == k && forall j :: 0 <= j < k ==> result[j] == kept[j].(chunkIndex := j)
    {
      result := result + [kept[k].(chunkIndex := k)];
    }
  }

  /** Every page chunked by itself, in page order. */
  ghost predicate PagesChunked(pages: seq<ParsedPage>, parts: seq<seq<DocumentChunk>>, chunkSize: nat, overlap: nat,
                               boundary: string -> seq<string>, norm: string -> string)
    requires overlap < chunkSize
  {
    |parts| == |pages| && forall i :: 0 <= i < |pages| ==> PageChunked(pages[i].blocks, parts[i], chunkSize, overlap, boundary, norm)
  }

  lemma PageDone(pages: seq<ParsedPage>, i: nat, parts: seq<seq<DocumentChunk>>, chunks: seq<DocumentChunk>, chunkSize: nat, overlap: nat,
                 boundary: string -> seq<string>, norm: string -> string)
    requires overlap < chunkSize && i < |pages| && PagesChunked(pages[..i], parts, chunkSize, overlap, boundary, norm)
    requires PageChunked(pages[i].blocks, chunks, chunkSize, overlap, boundary, norm)
    ensures PagesChunked(pages[..i + 1], parts + [chunks], chunkSize, overlap, boundary, norm)
    ensures ConcatChunks(parts + [chunks]) == ConcatChunks(parts) + chunks
  {
    var done, parts' := pages[..i + 1], parts + [chunks];
    forall k | 0 <= k <= i
      ensures PageChunked(done[k].blocks, parts'[k], chunkSize, overlap, boundary, norm)
    {
      assert k < i ==> done[k] == pages[..i][k] && parts'[k] == parts[k];
    }
    assert parts'[..|parts|] == parts;
  }

  /** The chunks of all pages, before duplicates are dropped. */
  method ChunkPages(pages: seq<ParsedPage>, chunkSize: nat, overlap: nat, boundary: string -> seq<string>, norm: string -> string)
    returns (chunks: seq<DocumentChunk>, ghost parts: seq<seq<DocumentChunk>>)
    requires overlap < chunkSize && IsNormalizer(norm)
    ensures PagesChunked(pages, parts, chunkSize, overlap, boundary, norm) && chunks == ConcatChunks(parts)
    ensures exists ps :: PagesChunked(pages, ps, chunkSize, overlap, boundary, norm) && chunks == ConcatChunks(ps)
  {
    chunks, parts := [], [];
    for i := 0 to |pages|
      invariant PagesChunked(pages[..i], parts, chunkSize, overlap, boundary, norm) && chunks == ConcatChunks(parts)
    {
      var page := ChunkPage(pages[i].blocks, chunkSize, overlap, boundary, norm);
      PageDone(pages, i, parts, page, chunkSize, overlap, boundary, norm);
      chunks, parts := chunks + page, parts + [page];
    }
    assert pages[..|pages|] == pages;
  }

  /** The settings are rejected in order; otherwise the pages' chunks are deduplicated and renumbered. */
  method ChunkDocument(pages: seq<ParsedPage>, chunkSize: int, overlap: int, boundary: string -> seq<string>, norm: string -> string)
    returns (r: Result<seq<DocumentChunk>, SettingsError>, ghost parts: seq<seq<DocumentChunk>>, ghost at: seq<nat>)
    requires IsNormalizer(norm)
    ensures r == Failure(ChunkSizeNotPositive) <==> chunkSize < 1
    ensures r == Failure(OverlapNegative) <==> chunkSize >= 1 && overlap < 0
    ensures r == Failure(OverlapTooLarge) <==> chunkSize >= 1 && overlap >= chunkSize
    ensures r.Success? ==>
              && PagesChunked(pages, parts, chunkSize, overlap, boundary, norm)
              && Indexed(r.value, norm) && CoversIndexable(r.value, ConcatChunks(parts), norm)
              && DrawnFrom(r.value, ConcatChunks(parts), at)
  {
    if chunkSize < 1 {
      return Failure(ChunkSizeNotPositive), [], [];
    }
    if overlap < 0 {
      return Failure(OverlapNegative), [], [];
    }
    if overlap >= chunkSize {
      return Failure(OverlapTooLarge), [], [];
    }
    var chunks;
    chunks, parts := ChunkPages(pages, chunkSize, overlap, boundary, norm);
    var result;
    result, at := Deduplicated(chunks, norm);
    r := Success(result);
  }

  lemma ResultIsIndexed(chunks: seq<DocumentChunk>, kept: seq<DocumentChunk>, at: seq<nat>, result: seq<DocumentChunk>, norm: string -> string)
    requires FirstOfEach(chunks, |chunks|, kept, at, norm) && Renumbered(kept, result)
    ensures Indexed(result, norm) && DrawnFrom(result, chunks, at)
  {
    forall j, k | 0 <= j < k < |kept|
      ensures norm(kept[j].text) != norm(kept[k].text)
    {
      KeptKeysAreDistinct(chunks, kept, at, norm, j, k);
    }
  }

  lemma ResultCovers(chunks: seq<DocumentChunk>, kept: seq<DocumentChunk>, at: seq<nat>, result: seq<DocumentChunk>, norm: string -> string)
    requires FirstOfEach(chunks, |chunks|, kept, at, norm) && Renumbered(kept, result)
    ensures CoversIndexable(result, chunks, norm)
  {
    forall i | 0 <= i < |chunks| && Indexable(chunks[i], norm)
      ensures exists k :: 0 <= k < |result| && norm(result[k].text) == norm(chunks[i].text)
    {
      var c :| c in kept && norm(c.text) == norm(chunks[i].text);
      var k :| 0 <= k < |kept| && kept[k] == c;
      assert norm(result[k].text) == norm(chunks[i].text);
    }
  }

  method Deduplicated(chunks: seq<DocumentChunk>, norm: string -> string) returns (result: seq<DocumentChunk>, ghost at: seq<nat>)
    ensures Indexed(result, norm) && CoversIndexable(result, chunks, norm) && DrawnFrom(result, chunks, at)
  {
    var kept;
    kept, at := DeduplicateChunks(chunks, norm);
    result := Renumber(kept);
    ResultIsIndexed(chunks, kept, at, result, norm);
    ResultCovers(chunks, kept, at, result, norm);
  }
}
