/** Packing the blocks of one section into greedy, overlapping windows. */
module BlockChunker {
  import opened Text
  import opened LongText

  datatype ParsedBlock = ParsedBlock(text: string, page: int, section: string, ocrUsed: bool, isHeading: bool)

  datatype DocumentChunk = DocumentChunk(text: string, page: int, section: string, ocrUsed: bool, chunkIndex: nat)

  function TextTotal(blocks: seq<ParsedBlock>): nat {
    if blocks == [] then 0 else |blocks[0].text| + TextTotal(blocks[1..])
  }

  /** The length of the blocks' texts joined by blank lines. */
  function JoinedLength(blocks: seq<ParsedBlock>): nat {
    if blocks == [] then 0 else TextTotal(blocks) + 2 * (|blocks| - 1)
  }

  function Texts(blocks: seq<ParsedBlock>): seq<string> {
    if blocks == [] then [] else [blocks[0].text] + Texts(blocks[1..])
  }

  lemma {:induction false} JoinedLengthIsLength(blocks: seq<ParsedBlock>)
    ensures |Texts(blocks)| == |blocks| && |Join(Texts(blocks))| == JoinedLength(blocks)
  {
    if |blocks| == 1 {
      assert blocks[1..] == [] && TextTotal(blocks[1..]) == 0;
      assert Texts(blocks) == [blocks[0].text];
    } else if |blocks| > 1 {
      JoinedLengthIsLength(blocks[1..]);
      var texts := Texts(blocks);
      assert texts[0] == blocks[0].text && texts[1..] == Texts(blocks[1..]);
      assert |texts[0] + "\n\n" + Join(texts[1..])| == |texts[0]| + 2 + |Join(texts[1..])|;
    }
  }

  lemma {:induction false} TotalAppend(a: seq<ParsedBlock>, b: seq<ParsedBlock>)
    ensures TextTotal(a + b) == TextTotal(a) + TextTotal(b)
  {
    if a == [] {
      assert a + b == b;
    } else {
      assert (a + b)[0] == a[0] && (a + b)[1..] == a[1..] + b;
      TotalAppend(a[1..], b);
    }
  }

  predicate AnyOcr(blocks: seq<ParsedBlock>) { exists b :: b in blocks && b.ocrUsed }

  function MakeChunk(blocks: seq<ParsedBlock>, chunkIndex: nat): DocumentChunk
    requires blocks != []
  {
    DocumentChunk(Join(Texts(blocks)), blocks[0].page, blocks[0].section, AnyOcr(blocks), chunkIndex)
  }

  lemma {:induction false} TextsAreInOrder(blocks: seq<ParsedBlock>, k: nat)
    requires k < |blocks|
    ensures |Texts(blocks)| == |blocks| && Texts(blocks)[k] == blocks[k].text
  {
    JoinedLengthIsLength(blocks);
    if k > 0 {
      TextsAreInOrder(blocks[1..], k - 1);
    }
  }

  /** The blocks' texts in order, joined; where the first of them is from; read by OCR as soon as one of them is. */
  lemma ChunkHoldsItsBlocks(blocks: seq<ParsedBlock>, index: nat) returns (texts: seq<string>)
    requires blocks != []
    ensures var chunk := MakeChunk(blocks, index);
            && |texts| == |blocks| && (forall k :: 0 <= k < |blocks| ==> texts[k] == blocks[k].text) && chunk.text == Join(texts)
            && chunk.page == blocks[0].page && chunk.section == blocks[0].section && chunk.chunkIndex == index
            && (chunk.ocrUsed <==> exists k :: 0 <= k < |blocks| && blocks[k].ocrUsed)
  {
    texts := Texts(blocks);
    JoinedLengthIsLength(blocks);
    forall k | 0 <= k < |blocks|
      ensures texts[k] == blocks[k].text
    {
      TextsAreInOrder(blocks, k);
    }
  }

  /** What may be carried over: at most one block, or blocks of at most `overlap` characters. */
  predicate SmallEnough(blocks: seq<ParsedBlock>, overlap: nat) {
    |blocks| <= 1 || TextTotal(blocks) <= overlap
  }

  /** With an overlap asked for: pieces that do not reach it without their first one, and stay within it unless there is only one. */
  predicate Retainable(blocks: seq<ParsedBlock>, overlap: nat)
    requires blocks != []
  {
    overlap > 0 && SmallEnough(blocks, overlap) && (|blocks| > 1 ==> TextTotal(blocks[1..]) < overlap)
  }

  /** What the next window may begin with: nothing of the earlier one, or retainable pieces that leave room for the next piece. */
  predicate CarriesOver(blocks: seq<ParsedBlock>, next: ParsedBlock, chunkSize: nat, overlap: nat) {
    blocks == [] || (Retainable(blocks, overlap) && JoinedLength(blocks + [next]) <= chunkSize)
  }

  lemma SuffixTotal(blocks: seq<ParsedBlock>, k: nat)
    requires k <= |blocks|
    ensures TextTotal(blocks[k..]) <= TextTotal(blocks)
  {
    TotalAppend(blocks[..k], blocks[k..]);
    assert blocks == blocks[..k] + blocks[k..];
  }

  lemma SuffixJoinedLength(blocks: seq<ParsedBlock>, k: nat, next: ParsedBlock)
    requires k <= |blocks|
    ensures JoinedLength(blocks[k..] + [next]) <= JoinedLength(blocks + [next])
  {
    assert (blocks + [next])[k..] == blocks[k..] + [next];
    SuffixTotal(blocks + [next], k);
  }

  lemma SuffixRetainable(blocks: seq<ParsedBlock>, k: nat, overlap: nat)
    requires k < |blocks| && Retainable(blocks, overlap)
    ensures Retainable(blocks[k..], overlap)
  {
    SuffixSmallEnough(blocks, k, overlap);
    if k + 1 < |blocks| {
      assert blocks[k..][1..] == blocks[1..][k..];
      SuffixTotal(blocks[1..], k);
    }
  }

  lemma SuffixSmallEnough(blocks: seq<ParsedBlock>, k: nat, overlap: nat)
    requires k <= |blocks| && SmallEnough(blocks, overlap)
    ensures SmallEnough(blocks[k..], overlap)
  {
    TotalAppend(blocks[..k], blocks[k..]);
    assert blocks == blocks[..k] + blocks[k..];
  }

  lemma NothingEarlierIsRetainable(blocks: seq<ParsedBlock>, from: nat, overlap: nat)
    requires 0 < from <= |blocks| && !Retainable(blocks[from - 1..], overlap)
    ensures forall k :: 0 <= k < from ==> !Retainable(blocks[k..], overlap)
  {
    forall k | 0 <= k < from
      ensures !Retainable(blocks[k..], overlap)
    {
      assert blocks[k..][from - 1 - k..] == blocks[from - 1..];
      if Retainable(blocks[k..], overlap) {
        SuffixRetainable(blocks[k..], from - 1 - k, overlap);
      }
    }
  }

  /** The longest run of last blocks that stops at `overlap` characters, but at least one when any overlap is asked for. */
  method OverlapBlocks(blocks: seq<ParsedBlock>, overlap: nat) returns (retained: seq<ParsedBlock>, ghost from: nat)
    ensures from <= |blocks| && retained == blocks[from..] && SmallEnough(retained, overlap)
    ensures overlap == 0 ==> retained == []
    ensures overlap > 0 && blocks != [] ==> retained != []
    ensures retained != [] ==> Retainable(retained, overlap)
    ensures forall k :: 0 <= k < from && k < |blocks| ==> !Retainable(blocks[k..], overlap)
  {
    if overlap == 0 {
      return [], |blocks|;
    }
    retained := [];
    var at := |blocks|;
    var retainedLength := 0;
    while at > 0
      invariant 0 <= at <= |blocks| && retained == blocks[at..] && retainedLength == TextTotal(retained)
      invariant SmallEnough(retained, overlap)
      invariant retained == [] ==> at == |blocks|
      invariant retained != [] ==> Retainable(retained, overlap) && retainedLength < overlap
      decreases at
    {
      var block := blocks[at - 1];
      if retained != [] && retainedLength + |block.text| > overlap {
        break;
      }
      assert blocks[at - 1..] == [block] + blocks[at..];
      retained, at := [block] + retained, at - 1;
      retainedLength := retainedLength + |block.text|;
      if retainedLength >= overlap {
        break;
      }
    }
    from := at;
    if from > 0 {
      assert blocks[from - 1..] == [blocks[from - 1]] + retained && blocks[from - 1..][1..] == retained;
      NothingEarlierIsRetainable(blocks, from, overlap);
    }
  }

  // ---------------------------------------------------------------------------------------
  // Windows.

  ghost predicate FitsOrSingle(pieces: seq<ParsedBlock>, w: Span, chunkSize: nat) {
    w.lo < w.hi <= |pieces| && (w.hi == w.lo + 1 || JoinedLength(pieces[w.lo..w.hi]) <= chunkSize)
  }

  predicate MayCarry(pieces: seq<ParsedBlock>, k: nat, hi: nat, chunkSize: nat, overlap: nat)
    requires k <= hi < |pieces|
  {
    CarriesOver(pieces[k..hi], pieces[hi], chunkSize, overlap)
  }

  /**
   Both ends move forward, nothing is skipped, the earlier window had no room for the piece that made the next
   one necessary, and the next one begins as early in the earlier one as what may be carried over allows.
   */
  ghost predicate Follows(pieces: seq<ParsedBlock>, w: Span, next: Span, chunkSize: nat, overlap: nat)
    requires w.lo < w.hi <= |pieces| && next.hi <= |pieces|
  {
    && w.lo < next.lo <= w.hi < next.hi
    && JoinedLength(pieces[w.lo..w.hi + 1]) > chunkSize
    && MayCarry(pieces, next.lo, w.hi, chunkSize, overlap)
    && forall k :: w.lo <= k < next.lo ==> !MayCarry(pieces, k, w.hi, chunkSize, overlap)
  }

  ghost predicate Windows(pieces: seq<ParsedBlock>, ws: seq<Span>, chunkSize: nat, overlap: nat) {
    && (forall p :: 0 <= p < |ws| ==> FitsOrSingle(pieces, ws[p], chunkSize))
    && (ws != [] ==> ws[0].lo == 0)
    && (forall q, p :: 0 <= q && p == q + 1 < |ws| ==> Follows(pieces, ws[q], ws[p], chunkSize, overlap))
  }

  lemma AddWindow(pieces: seq<ParsedBlock>, ws: seq<Span>, w: Span, chunkSize: nat, overlap: nat)
    requires Windows(pieces, ws, chunkSize, overlap) && FitsOrSingle(pieces, w, chunkSize)
    requires if ws == [] then w.lo == 0 else Follows(pieces, ws[|ws| - 1], w, chunkSize, overlap)
    ensures Windows(pieces, ws + [w], chunkSize, overlap)
  {
    var ws' := ws + [w];
    forall q, p | 0 <= q && p == q + 1 < |ws'|
      ensures Follows(pieces, ws'[q], ws'[p], chunkSize, overlap)
    {
      assert ws'[q] == ws[q] && (p < |ws| ==> ws'[p] == ws[p]);
    }
  }

  /** Dropping blocks from the front of the overlap until the next block fits behind what is left. */
  method TrimOverlap(retained: seq<ParsedBlock>, block: ParsedBlock, chunkSize: nat) returns (current: seq<ParsedBlock>, ghost dropped: nat)
    ensures dropped <= |retained| && current == retained[dropped..]
    ensures current == [] || JoinedLength(current + [block]) <= chunkSize
    ensures dropped > 0 ==> JoinedLength(retained[dropped - 1..] + [block]) > chunkSize
  {
    current, dropped := retained, 0;
    while current != [] && JoinedLength(current + [block]) > chunkSize
      invariant dropped <= |retained| && current == retained[dropped..]
      invariant dropped > 0 ==> JoinedLength(retained[dropped - 1..] + [block]) > chunkSize
    {
      current, dropped := current[1..], dropped + 1;
    }
  }

  /** Of what was dropped from the overlap, nothing would have left room. */
  lemma NothingEarlierFits(retained: seq<ParsedBlock>, dropped: nat, block: ParsedBlock, chunkSize: nat)
    requires 0 < dropped <= |retained| && JoinedLength(retained[dropped - 1..] + [block]) > chunkSize
    ensures forall k :: 0 <= k < dropped ==> JoinedLength(retained[k..] + [block]) > chunkSize
  {
    forall k | 0 <= k < dropped
      ensures JoinedLength(retained[k..] + [block]) > chunkSize
    {
      SuffixJoinedLength(retained[k..], dropped - 1 - k, block);
      assert retained[k..][dropped - 1 - k..] == retained[dropped - 1..];
    }
  }

  /** After a full window: what the next one keeps of it, given that `block` did not fit behind all of it: as much as may be. */
  method CarryOver(current: seq<ParsedBlock>, block: ParsedBlock, chunkSize: nat, overlap: nat)
    returns (kept: seq<ParsedBlock>, ghost dropped: nat)
    requires current != [] && JoinedLength(current + [block]) > chunkSize
    ensures 0 < dropped <= |current| && kept == current[dropped..] && CarriesOver(kept, block, chunkSize, overlap)
    ensures forall k :: 0 <= k < dropped ==> !CarriesOver(current[k..], block, chunkSize, overlap)
  {
    ghost var from, trimmed;
    var retained;
    retained, from := OverlapBlocks(current, overlap);
    kept, trimmed := TrimOverlap(retained, block, chunkSize);
    dropped := from + trimmed;
    assert current[from..][trimmed..] == current[dropped..];
    assert dropped == 0 ==> kept == current;
    if kept != [] {
      SuffixRetainable(retained, trimmed, overlap);
    }
    forall k | 0 <= k < dropped
      ensures !CarriesOver(current[k..], block, chunkSize, overlap)
    {
      if k >= from {
        NothingEarlierFits(retained, trimmed, block, chunkSize);
        assert current[k..] == retained[k - from..];
      }
    }
  }

  /** The window being filled: the pieces from `lo` up to the next one, `i`. */
  ghost predicate OpenWindow(pieces: seq<ParsedBlock>, ws: seq<Span>, lo: nat, i: nat, chunkSize: nat, overlap: nat) {
    && FitsOrSingle(pieces, Span(lo, i), chunkSize)
    && if ws == [] then lo == 0
       else ws[|ws| - 1].lo < ws[|ws| - 1].hi <= |pieces| && Follows(pieces, ws[|ws| - 1], Span(lo, i), chunkSize, overlap)
  }

  /** The chunks are the windows of the pieces, in order, numbered from `startIndex`. */
  ghost predicate ChunksOf(chunks: seq<DocumentChunk>, pieces: seq<ParsedBlock>, ws: seq<Span>, startIndex: nat) {
    && |chunks| == |ws|
    && forall p :: 0 <= p < |ws| ==>
         ws[p].lo < ws[p].hi <= |pieces| && chunks[p] == MakeChunk(pieces[ws[p].lo..ws[p].hi], startIndex + p)
  }

  lemma AddChunk(chunks: seq<DocumentChunk>, pieces: seq<ParsedBlock>, ws: seq<Span>, startIndex: nat, w: Span)
    requires ChunksOf(chunks, pieces, ws, startIndex) && w.lo < w.hi <= |pieces|
    ensures ChunksOf(chunks + [MakeChunk(pieces[w.lo..w.hi], startIndex + |chunks|)], pieces, ws + [w], startIndex)
  {
  }

  /** What the window loop holds before piece `i`. */
  ghost predicate PackState(pieces: seq<ParsedBlock>, chunks: seq<DocumentChunk>, ws: seq<Span>, lo: nat, i: nat,
                            chunkSize: nat, overlap: nat, startIndex: nat) {
    && lo <= i <= |pieces|
    && Windows(pieces, ws, chunkSize, overlap) && ChunksOf(chunks, pieces, ws, startIndex)
    && if i == 0 then ws == [] && lo == 0 else OpenWindow(pieces, ws, lo, i, chunkSize, overlap)
  }

  lemma GrowWindow(pieces: seq<ParsedBlock>, chunks: seq<DocumentChunk>, ws: seq<Span>, lo: nat, i: nat,
                   chunkSize: nat, overlap: nat, startIndex: nat)
    requires PackState(pieces, chunks, ws, lo, i, chunkSize, overlap, startIndex) && i < |pieces|
    requires lo == i || JoinedLength(pieces[lo..i + 1]) <= chunkSize
    ensures PackState(pieces, chunks, ws, lo, i + 1, chunkSize, overlap, startIndex)
  {
  }

  /** Closing the window before piece `i` and opening the next one with the kept pieces and piece `i`. */
  lemma NextWindow(pieces: seq<ParsedBlock>, chunks: seq<DocumentChunk>, ws: seq<Span>, lo: nat, i: nat, next: nat,
                   chunkSize: nat, overlap: nat, startIndex: nat)
    requires PackState(pieces, chunks, ws, lo, i, chunkSize, overlap, startIndex) && 0 < i < |pieces|
    requires JoinedLength(pieces[lo..i + 1]) > chunkSize
    requires lo < next <= i && MayCarry(pieces, next, i, chunkSize, overlap)
    requires forall k :: lo <= k < next ==> !MayCarry(pieces, k, i, chunkSize, overlap)
    ensures PackState(pieces, chunks + [MakeChunk(pieces[lo..i], startIndex + |chunks|)], ws + [Span(lo, i)], next, i + 1,
                      chunkSize, overlap, startIndex)
  {
    AddWindow(pieces, ws, Span(lo, i), chunkSize, overlap);
    AddChunk(chunks, pieces, ws, startIndex, Span(lo, i));
    SliceNext(pieces, next, i);
    assert Follows(pieces, Span(lo, i), Span(next, i + 1), chunkSize, overlap);
  }

  lemma SliceNext(pieces: seq<ParsedBlock>, lo: nat, i: nat)
    requires lo <= i < |pieces|
    ensures pieces[lo..i] + [pieces[i]] == pieces[lo..i + 1]
  {
  }

  lemma SliceDrop(pieces: seq<ParsedBlock>, lo: nat, i: nat, dropped: nat)
    requires lo + dropped <= i <= |pieces|
    ensures pieces[lo..i][dropped..] == pieces[lo + dropped..i]
  {
  }

  /** The pieces kept for the next window, as a slice of all pieces. */
  method NextStart(pieces: seq<ParsedBlock>, current: seq<ParsedBlock>, ghost lo: nat, i: nat, chunkSize: nat, overlap: nat)
    returns (kept: seq<ParsedBlock>, ghost next: nat)
    requires lo < i < |pieces| && current == pieces[lo..i] && JoinedLength(pieces[lo..i + 1]) > chunkSize
    ensures lo < next <= i && kept == pieces[next..i] && MayCarry(pieces, next, i, chunkSize, overlap)
    ensures forall k :: lo <= k < next ==> !MayCarry(pieces, k, i, chunkSize, overlap)
  {
    SliceNext(pieces, lo, i);
    ghost var dropped;
    kept, dropped := CarryOver(current, pieces[i], chunkSize, overlap);
    next := lo + dropped;
    SliceDrop(pieces, lo, i, dropped);
    forall k | lo <= k < next
      ensures !MayCarry(pieces, k, i, chunkSize, overlap)
    {
      SliceDrop(pieces, lo, i, k - lo);
      assert !CarriesOver(current[k - lo..], pieces[i], chunkSize, overlap);
    }
  }

  /** The window loop over the expanded pieces of one section. */
  method PackPieces(pieces: seq<ParsedBlock>, chunkSize: nat, overlap: nat, startIndex: nat)
    returns (chunks: seq<DocumentChunk>, ghost ws: seq<Span>)
    ensures Windows(pieces, ws, chunkSize, overlap) && EndOf(ws) == |pieces|
    ensures ChunksOf(chunks, pieces, ws, startIndex)
  {
    chunks, ws := [], [];
    var current: seq<ParsedBlock> := [];
    ghost var lo := 0;
    for i := 0 to |pieces|
      invariant PackState(pieces, chunks, ws, lo, i, chunkSize, overlap, startIndex)
      invariant current == pieces[lo..i]
    {
      var block := pieces[i];
      SliceNext(pieces, lo, i);
      if current != [] && JoinedLength(current + [block]) > chunkSize {
        ghost var next;
        var kept;
        kept, next := NextStart(pieces, current, lo, i, chunkSize, overlap);
        NextWindow(pieces, chunks, ws, lo, i, next, chunkSize, overlap, startIndex);
        chunks := chunks + [MakeChunk(current, startIndex + |chunks|)];
        ws, lo, current := ws + [Span(lo, i)], next, kept;
        SliceNext(pieces, lo, i);
      } else {
        GrowWindow(pieces, chunks, ws, lo, i, chunkSize, overlap, startIndex);
      }
      current := current + [block];
    }
    if current != [] {
      AddChunk(chunks, pieces, ws, startIndex, Span(lo, |pieces|));
      AddWindow(pieces, ws, Span(lo, |pieces|), chunkSize, overlap);
      chunks := chunks + [MakeChunk(current, startIndex + |chunks|)];
      ws := ws + [Span(lo, |pieces|)];
    }
  }

  // ---------------------------------------------------------------------------------------
  // The windows are settled by the pieces.

  lemma MoreIsLonger(pieces: seq<ParsedBlock>, lo: nat, hi: nat, further: nat)
    requires lo < hi <= further <= |pieces|
    ensures JoinedLength(pieces[lo..hi]) <= JoinedLength(pieces[lo..further])
  {
    assert pieces[lo..further] == pieces[lo..hi] + pieces[hi..further];
    TotalAppend(pieces[lo..hi], pieces[hi..further]);
  }

  /** Of two windows that begin alike, the one that is followed by another is no shorter. */
  lemma NoRoomEndsWindow(pieces: seq<ParsedBlock>, w: Span, other: Span, chunkSize: nat)
    requires FitsOrSingle(pieces, w, chunkSize) && FitsOrSingle(pieces, other, chunkSize) && w.lo == other.lo
    requires w.hi < |pieces| ==> JoinedLength(pieces[w.lo..w.hi + 1]) > chunkSize
    ensures other.hi <= w.hi
  {
    if other.hi > w.hi {
      MoreIsLonger(pieces, w.lo, w.hi + 1, other.hi);
    }
  }

  lemma WindowIsFull(pieces: seq<ParsedBlock>, ws: seq<Span>, p: nat, chunkSize: nat, overlap: nat)
    requires Windows(pieces, ws, chunkSize, overlap) && EndOf(ws) == |pieces| && p < |ws|
    ensures FitsOrSingle(pieces, ws[p], chunkSize)
    ensures ws[p].hi < |pieces| ==> p + 1 < |ws| && JoinedLength(pieces[ws[p].lo..ws[p].hi + 1]) > chunkSize
    ensures p + 1 < |ws| ==> ws[p].hi < |pieces| && Follows(pieces, ws[p], ws[p + 1], chunkSize, overlap)
  {
    var q := p + 1;
    if q < |ws| {
      assert Follows(pieces, ws[p], ws[q], chunkSize, overlap);
    }
  }

  /** Two windows after the same one begin alike. */
  lemma NextStartsAlike(pieces: seq<ParsedBlock>, w: Span, a: Span, b: Span, chunkSize: nat, overlap: nat)
    requires w.lo < w.hi < |pieces| && a.hi <= |pieces| && b.hi <= |pieces|
    requires Follows(pieces, w, a, chunkSize, overlap) && Follows(pieces, w, b, chunkSize, overlap)
    ensures a.lo == b.lo
  {
  }

  lemma EndsAgree(pieces: seq<ParsedBlock>, a: seq<Span>, b: seq<Span>, chunkSize: nat, overlap: nat, p: nat)
    requires Windows(pieces, a, chunkSize, overlap) && EndOf(a) == |pieces|
    requires Windows(pieces, b, chunkSize, overlap) && EndOf(b) == |pieces|
    requires p < |a| && p < |b| && a[p].lo == b[p].lo
    ensures a[p] == b[p]
  {
    WindowIsFull(pieces, a, p, chunkSize, overlap);
    WindowIsFull(pieces, b, p, chunkSize, overlap);
    NoRoomEndsWindow(pieces, a[p], b[p], chunkSize);
    NoRoomEndsWindow(pieces, b[p], a[p], chunkSize);
  }

  lemma StartsAgree(pieces: seq<ParsedBlock>, a: seq<Span>, b: seq<Span>, chunkSize: nat, overlap: nat, q: nat)
    requires Windows(pieces, a, chunkSize, overlap) && EndOf(a) == |pieces|
    requires Windows(pieces, b, chunkSize, overlap) && EndOf(b) == |pieces|
    requires q + 1 < |a| && q < |b| && a[q] == b[q]
    ensures q + 1 < |b| && a[q + 1].lo == b[q + 1].lo
  {
    WindowIsFull(pieces, a, q, chunkSize, overlap);
    WindowIsFull(pieces, b, q, chunkSize, overlap);
    WindowIsFull(pieces, a, q + 1, chunkSize, overlap);
    WindowIsFull(pieces, b, q + 1, chunkSize, overlap);
    NextStartsAlike(pieces, a[q], a[q + 1], b[q + 1], chunkSize, overlap);
  }

  lemma {:induction false} WindowsAgree(pieces: seq<ParsedBlock>, a: seq<Span>, b: seq<Span>, chunkSize: nat, overlap: nat, p: nat)
    requires Windows(pieces, a, chunkSize, overlap) && EndOf(a) == |pieces|
    requires Windows(pieces, b, chunkSize, overlap) && EndOf(b) == |pieces|
    requires p < |a|
    ensures p < |b| && a[p] == b[p]
  {
    WindowIsFull(pieces, a, p, chunkSize, overlap);
    if p == 0 {
      assert b != [];
    } else {
      WindowsAgree(pieces, a, b, chunkSize, overlap, p - 1);
      StartsAgree(pieces, a, b, chunkSize, overlap, p - 1);
    }
    EndsAgree(pieces, a, b, chunkSize, overlap, p);
  }

  /** There is one way only to cut the pieces into windows. */
  lemma WindowsAreSettled(pieces: seq<ParsedBlock>, a: seq<Span>, b: seq<Span>, chunkSize: nat, overlap: nat)
    requires Windows(pieces, a, chunkSize, overlap) && EndOf(a) == |pieces|
    requires Windows(pieces, b, chunkSize, overlap) && EndOf(b) == |pieces|
    ensures a == b
  {
    forall p | 0 <= p < |a|
      ensures p < |b| && a[p] == b[p]
    {
      WindowsAgree(pieces, a, b, chunkSize, overlap, p);
    }
    forall p | 0 <= p < |b|
      ensures p < |a| && a[p] == b[p]
    {
      WindowsAgree(pieces, b, a, chunkSize, overlap, p);
    }
  }

  /** Consecutive windows share a piece exactly when an overlap is asked for and the earlier one's last piece leaves room for the next piece. */
  lemma WindowsShareExactlyWhen(pieces: seq<ParsedBlock>, ws: seq<Span>, p: nat, chunkSize: nat, overlap: nat)
    requires Windows(pieces, ws, chunkSize, overlap) && EndOf(ws) == |pieces| && p + 1 < |ws|
    ensures ws[p].hi < |pieces|
    ensures ws[p + 1].lo < ws[p].hi <==>
              overlap > 0 && |pieces[ws[p].hi - 1].text| + 2 + |pieces[ws[p].hi].text| <= chunkSize
  {
    WindowIsFull(pieces, ws, p, chunkSize, overlap);
    var w, next := ws[p], ws[p + 1];
    var last := w.hi - 1;
    LastPieceCarries(pieces, last, chunkSize, overlap);
    if next.lo < w.hi {
      EarlierCarriesLater(pieces, next.lo, w.hi, chunkSize, overlap);
    } else {
      assert !MayCarry(pieces, last, w.hi, chunkSize, overlap);
    }
  }

  lemma LastPieceCarries(pieces: seq<ParsedBlock>, last: nat, chunkSize: nat, overlap: nat)
    requires last + 1 < |pieces|
    ensures MayCarry(pieces, last, last + 1, chunkSize, overlap) <==>
              overlap > 0 && |pieces[last].text| + 2 + |pieces[last + 1].text| <= chunkSize
  {
    var a, b := pieces[last], pieces[last + 1];
    assert pieces[last..last + 1] == [a] && [a] + [b] == [a, b] && [a, b][1..] == [b] && [b][1..] == [];
    assert TextTotal([b]) == |b.text| + TextTotal([b][1..]) == |b.text|;
    assert TextTotal([a, b]) == |a.text| + TextTotal([a, b][1..]);
  }

  /** What may be carried over may be carried over without its first pieces. */
  lemma EarlierCarriesLater(pieces: seq<ParsedBlock>, k: nat, hi: nat, chunkSize: nat, overlap: nat)
    requires k < hi < |pieces| && MayCarry(pieces, k, hi, chunkSize, overlap)
    ensures MayCarry(pieces, hi - 1, hi, chunkSize, overlap)
  {
    var blocks := pieces[k..hi];
    SuffixRetainable(blocks, |blocks| - 1, overlap);
    SuffixJoinedLength(blocks, |blocks| - 1, pieces[hi]);
    assert blocks[|blocks| - 1..] == pieces[hi - 1..hi];
  }

  // ---------------------------------------------------------------------------------------
  // One section: expand over-long blocks, then pack.

  /** What SplitLongText promises of one block. */
  ghost predicate SplitsInto(text: string, parts: seq<string>, chunkSize: nat, overlap: nat, boundary: string -> seq<string>)
    requires overlap < chunkSize
  {
    if |text| <= chunkSize then parts == [text]
    else if PacksBySentence(Sentences(boundary(text)), chunkSize)
      then PackedSomehow(parts, Sentences(boundary(text)), chunkSize, overlap)
    else parts == PiecesAt(text, chunkSize, WindowStarts(text, chunkSize, overlap), STRIP)
  }

  /** The parts keep the block's provenance; only the first stays a heading. */
  function PartBlocks(block: ParsedBlock, parts: seq<string>): seq<ParsedBlock> {
    seq(|parts|, k requires 0 <= k < |parts| => block.(text := parts[k], isHeading := block.isHeading && k == 0))
  }

  method AsBlocks(block: ParsedBlock, parts: seq<string>) returns (blocks: seq<ParsedBlock>)
    ensures blocks == PartBlocks(block, parts)
  {
    blocks := [];
    for index := 0 to |parts|
      invariant blocks == PartBlocks(block, parts)[..index]
    {
      blocks := blocks + [ParsedBlock(parts[index], block.page, block.section, block.ocrUsed, block.isHeading && index == 0)];
    }
  }

  function Flatten(blocks: seq<ParsedBlock>, parts: seq<seq<string>>): seq<ParsedBlock>
    requires |blocks| == |parts|
  {
    if blocks == [] then []
    else Flatten(blocks[..|blocks| - 1], parts[..|parts| - 1]) + PartBlocks(blocks[|blocks| - 1], parts[|parts| - 1])
  }

  ghost predicate AllShort(blocks: seq<ParsedBlock>, limit: nat) {
    forall k :: 0 <= k < |blocks| ==> |blocks[k].text| <= limit
  }

  /** One block's parts, as blocks. */
  method ExpandBlock(block: ParsedBlock, chunkSize: nat, overlap: nat, boundary: string -> seq<string>)
    returns (blocks: seq<ParsedBlock>, ghost pieces: seq<string>)
    requires overlap < chunkSize
    ensures SplitsInto(block.text, pieces, chunkSize, overlap, boundary) && blocks == PartBlocks(block, pieces)
    ensures AllShort(blocks, chunkSize + overlap + 1)
  {
    var parts := SplitLongText(block.text, chunkSize, overlap, boundary);
    blocks := AsBlocks(block, parts);
    pieces := parts;
  }

  /** The parts of every block, as promised by SplitLongText. */
  ghost predicate AllSplit(blocks: seq<ParsedBlock>, parts: seq<seq<string>>, chunkSize: nat, overlap: nat, boundary: string -> seq<string>)
    requires overlap < chunkSize
  {
    |parts| == |blocks| && forall i :: 0 <= i < |blocks| ==> SplitsInto(blocks[i].text, parts[i], chunkSize, overlap, boundary)
  }

  lemma AllSplitNext(blocks: seq<ParsedBlock>, i: nat, parts: seq<seq<string>>, pieces: seq<string>,
                     chunkSize: nat, overlap: nat, boundary: string -> seq<string>)
    requires overlap < chunkSize && i < |blocks| && AllSplit(blocks[..i], parts, chunkSize, overlap, boundary)
    requires SplitsInto(blocks[i].text, pieces, chunkSize, overlap, boundary)
    ensures AllSplit(blocks[..i + 1], parts + [pieces], chunkSize, overlap, boundary)
  {
    var done, parts' := blocks[..i + 1], parts + [pieces];
    forall k | 0 <= k <= i
      ensures SplitsInto(done[k].text, parts'[k], chunkSize, overlap, boundary)
    {
      assert k < i ==> done[k] == blocks[..i][k] && parts'[k] == parts[k];
    }
  }

  method ExpandBlocks(blocks: seq<ParsedBlock>, chunkSize: nat, overlap: nat, boundary: string -> seq<string>)
    returns (expanded: seq<ParsedBlock>, ghost parts: seq<seq<string>>)
    requires overlap < chunkSize
    ensures AllSplit(blocks, parts, chunkSize, overlap, boundary) && expanded == Flatten(blocks, parts)
    ensures AllShort(expanded, chunkSize + overlap + 1)
  {
    expanded, parts := [], [];
    for i := 0 to |blocks|
      invariant AllSplit(blocks[..i], parts, chunkSize, overlap, boundary) && expanded == Flatten(blocks[..i], parts)
      invariant AllShort(expanded, chunkSize + overlap + 1)
    {
      ghost var pieces;
      var more;
      more, pieces := ExpandBlock(blocks[i], chunkSize, overlap, boundary);
      FlattenNext(blocks, parts, i, pieces);
      AllSplitNext(blocks, i, parts, pieces, chunkSize, overlap, boundary);
      expanded, parts := expanded + more, parts + [pieces];
    }
    assert blocks[..|blocks|] == blocks;
  }

  lemma FlattenNext(blocks: seq<ParsedBlock>, parts: seq<seq<string>>, i: nat, pieces: seq<string>)
    requires i < |blocks| && |parts| == i
    ensures Flatten(blocks[..i + 1], parts + [pieces]) == Flatten(blocks[..i], parts) + PartBlocks(blocks[i], pieces)
  {
    assert blocks[..i + 1][..i] == blocks[..i] && (parts + [pieces])[..i] == parts;
  }

  /** A window's text is never longer than the longest possible piece. */
  lemma ChunkLength(pieces: seq<ParsedBlock>, w: Span, chunkSize: nat, limit: nat, index: nat)
    requires FitsOrSingle(pieces, w, chunkSize) && AllShort(pieces, limit) && chunkSize <= limit
    ensures |MakeChunk(pieces[w.lo..w.hi], index).text| <= limit
    ensures w.hi > w.lo + 1 ==> |MakeChunk(pieces[w.lo..w.hi], index).text| <= chunkSize
  {
    JoinedLengthIsLength(pieces[w.lo..w.hi]);
    if w.hi == w.lo + 1 {
      assert pieces[w.lo..w.hi] == [pieces[w.lo]] && [pieces[w.lo]][1..] == [];
      assert TextTotal([pieces[w.lo]]) == |pieces[w.lo].text|;
    }
  }

  /** The chunks are the greedy windows over the split blocks of one section, numbered from `start`. */
  ghost predicate SectionChunks(blocks: seq<ParsedBlock>, chunks: seq<DocumentChunk>, start: nat, chunkSize: nat, overlap: nat,
                                boundary: string -> seq<string>)
    requires overlap < chunkSize
  {
    exists parts, ws ::
      && AllSplit(blocks, parts, chunkSize, overlap, boundary)
      && Windows(Flatten(blocks, parts), ws, chunkSize, overlap) && EndOf(ws) == |Flatten(blocks, parts)|
      && ChunksOf(chunks, Flatten(blocks, parts), ws, start)
  }

  method ChunkBlockGroup(blocks: seq<ParsedBlock>, chunkSize: nat, overlap: nat, startIndex: nat, boundary: string -> seq<string>)
    returns (chunks: seq<DocumentChunk>)
    requires overlap < chunkSize
    ensures SectionChunks(blocks, chunks, startIndex, chunkSize, overlap, boundary)
    ensures forall p :: 0 <= p < |chunks| ==> |chunks[p].text| <= chunkSize + overlap + 1
    ensures forall p :: 0 <= p < |chunks| ==> chunks[p].chunkIndex == startIndex + p
  {
    var expanded;
    ghost var parts, ws;
    expanded, parts := ExpandBlocks(blocks, chunkSize, overlap, boundary);
    chunks, ws := PackPieces(expanded, chunkSize, overlap, startIndex);
    forall p | 0 <= p < |chunks|
      ensures |chunks[p].text| <= chunkSize + overlap + 1
    {
      ChunkLength(expanded, ws[p], chunkSize, chunkSize + overlap + 1, startIndex + p);
    }
  }

  lemma SplitIsSettled(text: string, a: seq<string>, b: seq<string>, chunkSize: nat, overlap: nat, boundary: string -> seq<string>)
    requires overlap < chunkSize && SplitsInto(text, a, chunkSize, overlap, boundary) && SplitsInto(text, b, chunkSize, overlap, boundary)
    ensures a == b
  {
    var sentences := Sentences(boundary(text));
    if |text| > chunkSize && PacksBySentence(sentences, chunkSize) {
      var sa :| Packed(a, sa, sentences, chunkSize, overlap, s => Repeated(s, overlap)) && EndOf(sa) == |sentences|;
      var sb :| Packed(b, sb, sentences, chunkSize, overlap, s => Repeated(s, overlap)) && EndOf(sb) == |sentences|;
      PiecesAreSettled(a, sa, b, sb, sentences, chunkSize, overlap, s => Repeated(s, overlap));
    }
  }

  /** What becomes of a section is settled by its blocks: chunking leaves nothing open. */
  lemma SectionIsSettled(blocks: seq<ParsedBlock>, a: seq<DocumentChunk>, b: seq<DocumentChunk>, start: nat, chunkSize: nat, overlap: nat,
                         boundary: string -> seq<string>)
    requires overlap < chunkSize
    requires SectionChunks(blocks, a, start, chunkSize, overlap, boundary) && SectionChunks(blocks, b, start, chunkSize, overlap, boundary)
    ensures a == b
  {
    var pa, wa :| && AllSplit(blocks, pa, chunkSize, overlap, boundary)
                  && Windows(Flatten(blocks, pa), wa, chunkSize, overlap) && EndOf(wa) == |Flatten(blocks, pa)|
                  && ChunksOf(a, Flatten(blocks, pa), wa, start);
    var pb, wb :| && AllSplit(blocks, pb, chunkSize, overlap, boundary)
                  && Windows(Flatten(blocks, pb), wb, chunkSize, overlap) && EndOf(wb) == |Flatten(blocks, pb)|
                  && ChunksOf(b, Flatten(blocks, pb), wb, start);
    SplitsAreSettled(blocks, pa, pb, chunkSize, overlap, boundary);
    WindowsAreSettled(Flatten(blocks, pa), wa, wb, chunkSize, overlap);
  }

  lemma SplitsAreSettled(blocks: seq<ParsedBlock>, a: seq<seq<string>>, b: seq<seq<string>>, chunkSize: nat, overlap: nat,
                         boundary: string -> seq<string>)
    requires overlap < chunkSize && AllSplit(blocks, a, chunkSize, overlap, boundary) && AllSplit(blocks, b, chunkSize, overlap, boundary)
    ensures a == b
  {
    forall i | 0 <= i < |blocks|
      ensures a[i] == b[i]
    {
      SplitIsSettled(blocks[i].text, a[i], b[i], chunkSize, overlap, boundary);
    }
  }
}
