/** Splitting one over-long block: by packing whole sentences, or else by a sliding window. */
module LongText {
  import opened Text

  /** Sentences separated by single blanks. */
  function Glue(sentences: seq<string>): string {
    if sentences == [] then []
    else if |sentences| == 1 then sentences[0]
    else Glue(sentences[..|sentences| - 1]) + " " + sentences[|sentences| - 1]
  }

  /** A piece opens with the overlap prefix, if there is one. */
  function Opened(prefix: string, body: string): string {
    if prefix == [] then body else prefix + " " + body
  }

  function Tail(s: string, n: nat): string { if n < |s| then s[|s| - n..] else s }

  /** The end of a piece that the next one repeats. */
  function Repeated(piece: string, overlap: nat): string {
    if overlap == 0 then [] else LStrip(Tail(piece, overlap))
  }

  predicate IsSentence(s: string) { s != [] && Trimmed(s) }

  /** The items from `lo` up to but not including `hi`. */
  datatype Span = Span(lo: nat, hi: nat)

  /** Consecutive non-empty runs of the first `n` items, all of them when the last run ends at `n`. */
  predicate Partition(spans: seq<Span>, n: nat) {
    && (forall p :: 0 <= p < |spans| ==> spans[p].lo < spans[p].hi <= n)
    && (spans != [] ==> spans[0].lo == 0)
    && (forall q, p :: 0 <= q && p == q + 1 < |spans| ==> spans[q].hi == spans[p].lo)
  }

  /** Where the next run begins. */
  function EndOf(spans: seq<Span>): nat { if spans == [] then 0 else spans[|spans| - 1].hi }

  /** Carries at most `overlap` characters over, trimmed. */
  ghost predicate IsOverlap(repeated: string -> string, overlap: nat) {
    forall s :: Trimmed(s) ==> Trimmed(repeated(s)) && |repeated(s)| <= overlap
  }

  /** Piece p holds, whole and in order, the sentences of run p, after the overlap with its predecessor. */
  ghost predicate Packs(pieces: seq<string>, spans: seq<Span>, sentences: seq<string>, repeated: string -> string) {
    && |spans| == |pieces| && Partition(spans, |sentences|)
    && (pieces != [] ==> pieces[0] == PieceFor([], sentences, spans[0]))
    && (forall q, p :: 0 <= q && p == q + 1 < |pieces| ==>
          pieces[p] == PieceFor(repeated(pieces[q]), sentences, spans[p]))
  }

  function PieceFor(prefix: string, sentences: seq<string>, span: Span): string
    requires span.lo <= span.hi <= |sentences|
  {
    Opened(prefix, Glue(sentences[span.lo..span.hi]))
  }

  /** A piece exceeds the size only as a single sentence behind its prefix, and never by more than the prefix. */
  ghost predicate Fits(pieces: seq<string>, spans: seq<Span>, chunkSize: nat, overlap: nat)
    requires |spans| == |pieces|
  {
    forall p :: 0 <= p < |pieces| ==>
      && IsSentence(pieces[p])
      && |pieces[p]| <= chunkSize + overlap + 1
      && (|pieces[p]| > chunkSize ==> spans[p].hi == spans[p].lo + 1)
  }

  /** No piece had room for the sentence that opens the next one. */
  ghost predicate Greedy(pieces: seq<string>, spans: seq<Span>, sentences: seq<string>, chunkSize: nat)
    requires |spans| == |pieces| && Partition(spans, |sentences|)
  {
    forall q, p :: 0 <= q && p == q + 1 < |pieces| ==> |pieces[q]| + 1 + |sentences[spans[p].lo]| > chunkSize
  }

  lemma GlueNext(sentences: seq<string>, a: nat, b: nat)
    requires a < b < |sentences|
    ensures Glue(sentences[a..b + 1]) == Glue(sentences[a..b]) + " " + sentences[b]
  {
    assert sentences[a..b + 1][..b - a] == sentences[a..b];
  }

  lemma OneSentence(sentences: seq<string>, a: nat)
    requires a < |sentences|
    ensures Glue(sentences[a..a + 1]) == sentences[a]
  {
  }

  lemma OpenedIsSentence(current: string, sentence: string)
    requires Trimmed(current) && IsSentence(sentence)
    ensures IsSentence(Opened(current, sentence))
  {
  }

  /** What stripping does to a trimmed text and a sentence behind it: nothing, or drop the leading blank. */
  method AppendSentence(current: string, sentence: string) returns (text: string)
    requires Trimmed(current) && IsSentence(sentence)
    ensures text == Opened(current, sentence)
  {
    text := Strip(current + " " + sentence);
    if current == [] {
      LeadingBlank(sentence);
      assert [] + " " + sentence == [' '] + sentence;
    } else {
      TrimmedStripsToItself(current + " " + sentence);
    }
  }

  lemma RepeatedIsOverlap(overlap: nat)
    ensures IsOverlap(s => Repeated(s, overlap), overlap)
  {
    forall s | Trimmed(s)
      ensures Trimmed(Repeated(s, overlap)) && |Repeated(s, overlap)| <= overlap
    {
      TailOfTrimmed(s, overlap);
    }
  }

  lemma TailOfTrimmed(s: string, n: nat)
    requires Trimmed(s)
    ensures Trimmed(LStrip(Tail(s, n))) && |LStrip(Tail(s, n))| <= n
  {
    var t := Tail(s, n);
    var cut := LStripDrops(t);
    assert t != [] ==> t[|t| - 1] == s[|s| - 1];
  }

  /** With an overlap, a piece repeats the last `overlap` characters of its predecessor, white space in front left out. */
  lemma RepeatedIsTheEnd(piece: string, overlap: nat) returns (from: nat)
    requires IsSentence(piece)
    ensures overlap == 0 ==> Repeated(piece, overlap) == []
    ensures overlap > 0 ==>
              && from < |piece| && Repeated(piece, overlap) == piece[from..] && !IsSpace(piece[from])
              && (overlap >= |piece| ==> from == 0)
              && (overlap < |piece| ==> |piece| - overlap <= from && SpaceIn(piece, |piece| - overlap, from))
  {
    var end := Tail(piece, overlap);
    var cut := LStripDrops(end);
    from := if overlap < |piece| then |piece| - overlap + cut else cut;
    if overlap > 0 {
      assert end[|end| - 1] == piece[|piece| - 1];
      assert end[cut..] == piece[from..];
      assert forall i :: 0 <= i < cut ==> end[i] == piece[|piece| - |end| + i];
    }
  }

  /** The piece being filled after `i` sentences. */
  ghost predicate Open(pieces: seq<string>, spans: seq<Span>, current: string, i: nat, sentences: seq<string>,
                       chunkSize: nat, overlap: nat, repeated: string -> string) {
    && EndOf(spans) < i <= |sentences| && |spans| == |pieces|
    && current == PieceFor(if pieces == [] then [] else repeated(pieces[|pieces| - 1]), sentences, Span(EndOf(spans), i))
    && IsSentence(current) && |current| <= chunkSize + overlap + 1
    && (|current| > chunkSize ==> i == EndOf(spans) + 1)
    && (pieces != [] ==> |pieces[|pieces| - 1]| + 1 + |sentences[EndOf(spans)]| > chunkSize)
  }

  ghost predicate Packed(pieces: seq<string>, spans: seq<Span>, sentences: seq<string>,
                         chunkSize: nat, overlap: nat, repeated: string -> string) {
    && Packs(pieces, spans, sentences, repeated)
    && Fits(pieces, spans, chunkSize, overlap)
    && Greedy(pieces, spans, sentences, chunkSize)
  }

  lemma ClosePartition(spans: seq<Span>, i: nat, n: nat)
    requires Partition(spans, n) && EndOf(spans) < i <= n
    ensures Partition(spans + [Span(EndOf(spans), i)], n)
  {
  }

  lemma CloseFits(pieces: seq<string>, spans: seq<Span>, current: string, span: Span, chunkSize: nat, overlap: nat)
    requires |spans| == |pieces| && Fits(pieces, spans, chunkSize, overlap)
    requires IsSentence(current) && |current| <= chunkSize + overlap + 1 && (|current| > chunkSize ==> span.hi == span.lo + 1)
    ensures Fits(pieces + [current], spans + [span], chunkSize, overlap)
  {
  }

  lemma CloseGreedy(pieces: seq<string>, spans: seq<Span>, current: string, span: Span, sentences: seq<string>, chunkSize: nat)
    requires |spans| == |pieces| && Partition(spans, |sentences|) && Partition(spans + [span], |sentences|)
    requires span.lo < span.hi <= |sentences|
    requires Greedy(pieces, spans, sentences, chunkSize)
    requires pieces != [] ==> |pieces[|pieces| - 1]| + 1 + |sentences[span.lo]| > chunkSize
    ensures Greedy(pieces + [current], spans + [span], sentences, chunkSize)
  {
    var pieces', spans' := pieces + [current], spans + [span];
    forall q, p | 0 <= q && p == q + 1 < |pieces'|
      ensures |pieces'[q]| + 1 + |sentences[spans'[p].lo]| > chunkSize
    {
      assert pieces'[q] == pieces[q];
    }
  }

  lemma ClosePacks(pieces: seq<string>, spans: seq<Span>, current: string, span: Span, sentences: seq<string>,
                   repeated: string -> string)
    requires Packs(pieces, spans, sentences, repeated) && Partition(spans + [span], |sentences|)
    requires span.lo < span.hi <= |sentences|
    requires current == PieceFor(if pieces == [] then [] else repeated(pieces[|pieces| - 1]), sentences, span)
    ensures Packs(pieces + [current], spans + [span], sentences, repeated)
  {
    var pieces', spans' := pieces + [current], spans + [span];
    forall q, p | 0 <= q && p == q + 1 < |pieces'|
      ensures pieces'[p] == PieceFor(repeated(pieces'[q]), sentences, spans'[p])
    {
      assert pieces'[q] == pieces[q] && (p < |pieces| ==> pieces'[p] == pieces[p] && spans'[p] == spans[p]);
    }
  }

  /** Closing the open piece at sentence `i`. */
  lemma Close(pieces: seq<string>, spans: seq<Span>, current: string, i: nat, sentences: seq<string>,
              chunkSize: nat, overlap: nat, repeated: string -> string)
    requires Packed(pieces, spans, sentences, chunkSize, overlap, repeated)
    requires Open(pieces, spans, current, i, sentences, chunkSize, overlap, repeated)
    ensures Packed(pieces + [current], spans + [Span(EndOf(spans), i)], sentences, chunkSize, overlap, repeated)
  {
    var span := Span(EndOf(spans), i);
    ClosePartition(spans, i, |sentences|);
    ClosePacks(pieces, spans, current, span, sentences, repeated);
    CloseFits(pieces, spans, current, span, chunkSize, overlap);
    CloseGreedy(pieces, spans, current, span, sentences, chunkSize);
  }

  lemma PieceForNext(prefix: string, sentences: seq<string>, lo: nat, i: nat)
    requires lo < i < |sentences|
    ensures PieceFor(prefix, sentences, Span(lo, i + 1)) == PieceFor(prefix, sentences, Span(lo, i)) + " " + sentences[i]
  {
    var body := Glue(sentences[lo..i]);
    GlueNext(sentences, lo, i);
    if prefix != [] {
      assert prefix + " " + (body + " " + sentences[i]) == (prefix + " " + body) + " " + sentences[i];
    }
  }

  /** The sentence joins the open piece. */
  lemma JoinOpen(pieces: seq<string>, spans: seq<Span>, current: string, i: nat, sentences: seq<string>,
                 chunkSize: nat, overlap: nat, repeated: string -> string)
    requires Open(pieces, spans, current, i, sentences, chunkSize, overlap, repeated) && i < |sentences|
    requires IsSentence(sentences[i]) && |Opened(current, sentences[i])| <= chunkSize
    ensures Open(pieces, spans, Opened(current, sentences[i]), i + 1, sentences, chunkSize, overlap, repeated)
  {
    OpenedIsSentence(current, sentences[i]);
    PieceForNext(if pieces == [] then [] else repeated(pieces[|pieces| - 1]), sentences, EndOf(spans), i);
  }

  /** After a full piece the next one opens with its overlap and the sentence. */
  lemma OpenNext(pieces: seq<string>, spans: seq<Span>, current: string, i: nat, sentences: seq<string>,
                 chunkSize: nat, overlap: nat, repeated: string -> string)
    requires Open(pieces, spans, current, i, sentences, chunkSize, overlap, repeated) && i < |sentences|
    requires IsSentence(sentences[i]) && |sentences[i]| <= chunkSize && |Opened(current, sentences[i])| > chunkSize
    requires IsOverlap(repeated, overlap)
    ensures Open(pieces + [current], spans + [Span(EndOf(spans), i)], Opened(repeated(current), sentences[i]), i + 1,
                 sentences, chunkSize, overlap, repeated)
  {
    OpenedIsSentence(repeated(current), sentences[i]);
    OneSentence(sentences, i);
  }

  /** The loop's state after `i` sentences: nothing yet, or a piece open behind the packed ones. */
  ghost predicate Packing(pieces: seq<string>, spans: seq<Span>, current: string, i: nat, sentences: seq<string>,
                          chunkSize: nat, overlap: nat, repeated: string -> string) {
    && Packed(pieces, spans, sentences, chunkSize, overlap, repeated)
    && if i == 0 then current == [] && pieces == []
       else Open(pieces, spans, current, i, sentences, chunkSize, overlap, repeated)
  }

  lemma PackingJoins(pieces: seq<string>, spans: seq<Span>, current: string, i: nat, sentences: seq<string>,
                     chunkSize: nat, overlap: nat, repeated: string -> string)
    requires Packing(pieces, spans, current, i, sentences, chunkSize, overlap, repeated) && i < |sentences|
    requires IsSentence(sentences[i]) && |sentences[i]| <= chunkSize
    requires current == [] || |Opened(current, sentences[i])| <= chunkSize
    ensures Packing(pieces, spans, Opened(current, sentences[i]), i + 1, sentences, chunkSize, overlap, repeated)
  {
    if i > 0 {
      JoinOpen(pieces, spans, current, i, sentences, chunkSize, overlap, repeated);
    } else {
      OneSentence(sentences, 0);
    }
  }

  lemma PackingCloses(pieces: seq<string>, spans: seq<Span>, current: string, i: nat, sentences: seq<string>,
                      chunkSize: nat, overlap: nat, repeated: string -> string)
    requires Packing(pieces, spans, current, i, sentences, chunkSize, overlap, repeated) && i < |sentences|
    requires IsSentence(sentences[i]) && |sentences[i]| <= chunkSize && IsOverlap(repeated, overlap)
    requires current != [] && |Opened(current, sentences[i])| > chunkSize
    ensures Packing(pieces + [current], spans + [Span(EndOf(spans), i)], Opened(repeated(current), sentences[i]), i + 1,
                    sentences, chunkSize, overlap, repeated)
  {
    Close(pieces, spans, current, i, sentences, chunkSize, overlap, repeated);
    OpenNext(pieces, spans, current, i, sentences, chunkSize, overlap, repeated);
  }

  lemma PackingTrims(pieces: seq<string>, spans: seq<Span>, current: string, i: nat, sentences: seq<string>,
                     chunkSize: nat, overlap: nat, repeated: string -> string)
    requires Packing(pieces, spans, current, i, sentences, chunkSize, overlap, repeated)
    ensures Trimmed(current) && (current == [] <==> i == 0)
  {
  }

  lemma OverlapTrims(repeated: string -> string, overlap: nat, piece: string)
    requires IsOverlap(repeated, overlap) && Trimmed(piece)
    ensures Trimmed(repeated(piece))
  {
  }

  /** The sentence branch, for any way `repeated` of carrying over the end of a piece. */
  method PackSentences(sentences: seq<string>, chunkSize: nat, ghost overlap: nat, repeated: string -> string)
    returns (pieces: seq<string>, ghost spans: seq<Span>)
    requires forall s :: s in sentences ==> IsSentence(s) && |s| <= chunkSize
    requires IsOverlap(repeated, overlap)
    ensures Packed(pieces, spans, sentences, chunkSize, overlap, repeated) && EndOf(spans) == |sentences|
  {
    pieces, spans := [], [];
    var current := [];
    for i := 0 to |sentences|
      invariant Packing(pieces, spans, current, i, sentences, chunkSize, overlap, repeated)
    {
      var sentence := sentences[i];
      PackingTrims(pieces, spans, current, i, sentences, chunkSize, overlap, repeated);
      var proposed := AppendSentence(current, sentence);
      if current != [] && |proposed| > chunkSize {
        PackingCloses(pieces, spans, current, i, sentences, chunkSize, overlap, repeated);
        OverlapTrims(repeated, overlap, current);
        pieces, spans := pieces + [current], spans + [Span(EndOf(spans), i)];
        current := AppendSentence(repeated(current), sentence);
      } else {
        PackingJoins(pieces, spans, current, i, sentences, chunkSize, overlap, repeated);
        current := proposed;
      }
    }
    PackingTrims(pieces, spans, current, |sentences|, sentences, chunkSize, overlap, repeated);
    if current != [] {
      Close(pieces, spans, current, |sentences|, sentences, chunkSize, overlap, repeated);
      pieces, spans := pieces + [current], spans + [Span(EndOf(spans), |sentences|)];
    }
  }

  // ---------------------------------------------------------------------------------------
  // The pieces are settled by the sentences.

  lemma {:induction false} LongerPiece(prefix: string, sentences: seq<string>, lo: nat, hi: nat, further: nat)
    requires lo < hi <= further <= |sentences|
    ensures |PieceFor(prefix, sentences, Span(lo, hi))| <= |PieceFor(prefix, sentences, Span(lo, further))|
    decreases further
  {
    if hi < further {
      LongerPiece(prefix, sentences, lo, hi, further - 1);
      PieceForNext(prefix, sentences, lo, further - 1);
    }
  }

  /** What opens piece p. */
  ghost function PrefixOf(pieces: seq<string>, p: nat, repeated: string -> string): string
    requires p <= |pieces|
  {
    if p == 0 then [] else repeated(pieces[p - 1])
  }

  /** A piece that is not the last had no room for the next sentence. */
  lemma PieceIsFull(pieces: seq<string>, spans: seq<Span>, sentences: seq<string>, chunkSize: nat, overlap: nat, repeated: string -> string, p: nat)
    requires Packed(pieces, spans, sentences, chunkSize, overlap, repeated) && EndOf(spans) == |sentences| && p < |pieces|
    ensures spans[p].lo < spans[p].hi <= |sentences| && pieces[p] == PieceFor(PrefixOf(pieces, p, repeated), sentences, spans[p])
    ensures spans[p].lo == if p == 0 then 0 else spans[p - 1].hi
    ensures |pieces[p]| > chunkSize ==> spans[p].hi == spans[p].lo + 1
    ensures spans[p].hi < |sentences| ==> p + 1 < |pieces| && |pieces[p]| + 1 + |sentences[spans[p].hi]| > chunkSize
    ensures p + 1 < |pieces| ==> spans[p].hi < |sentences|
  {
    if p > 0 {
      var q := p - 1;
      assert pieces[p] == PieceFor(repeated(pieces[q]), sentences, spans[p]);
    }
    var next := p + 1;
    if next < |pieces| {
      assert |pieces[p]| + 1 + |sentences[spans[next].lo]| > chunkSize;
    }
  }

  lemma NoShorterPiece(prefix: string, sentences: seq<string>, lo: nat, hi: nat, other: nat, chunkSize: nat)
    requires lo < hi <= |sentences| && lo < other <= |sentences|
    requires hi < |sentences| ==> |PieceFor(prefix, sentences, Span(lo, hi))| + 1 + |sentences[hi]| > chunkSize
    requires |PieceFor(prefix, sentences, Span(lo, other))| > chunkSize ==> other == lo + 1
    ensures other <= hi
  {
    if other > hi {
      PieceForNext(prefix, sentences, lo, hi);
      LongerPiece(prefix, sentences, lo, hi + 1, other);
    }
  }

  lemma PieceEndsAgree(a: seq<string>, sa: seq<Span>, b: seq<string>, sb: seq<Span>, sentences: seq<string>,
                       chunkSize: nat, overlap: nat, repeated: string -> string, p: nat)
    requires Packed(a, sa, sentences, chunkSize, overlap, repeated) && EndOf(sa) == |sentences|
    requires Packed(b, sb, sentences, chunkSize, overlap, repeated) && EndOf(sb) == |sentences|
    requires p < |a| && p < |b| && sa[p].lo == sb[p].lo && PrefixOf(a, p, repeated) == PrefixOf(b, p, repeated)
    ensures a[p] == b[p] && sa[p] == sb[p]
  {
    PieceIsFull(a, sa, sentences, chunkSize, overlap, repeated, p);
    PieceIsFull(b, sb, sentences, chunkSize, overlap, repeated, p);
    var prefix := PrefixOf(a, p, repeated);
    NoShorterPiece(prefix, sentences, sa[p].lo, sa[p].hi, sb[p].hi, chunkSize);
    NoShorterPiece(prefix, sentences, sa[p].lo, sb[p].hi, sa[p].hi, chunkSize);
  }

  lemma PieceStartsAgree(a: seq<string>, sa: seq<Span>, b: seq<string>, sb: seq<Span>, sentences: seq<string>,
                         chunkSize: nat, overlap: nat, repeated: string -> string, q: nat)
    requires Packed(a, sa, sentences, chunkSize, overlap, repeated) && EndOf(sa) == |sentences|
    requires Packed(b, sb, sentences, chunkSize, overlap, repeated) && EndOf(sb) == |sentences|
    requires q + 1 < |a| && q < |b| && a[q] == b[q] && sa[q] == sb[q]
    ensures q + 1 < |b| && sa[q + 1].lo == sb[q + 1].lo
  {
    PieceIsFull(a, sa, sentences, chunkSize, overlap, repeated, q);
    PieceIsFull(b, sb, sentences, chunkSize, overlap, repeated, q);
    PieceIsFull(a, sa, sentences, chunkSize, overlap, repeated, q + 1);
    PieceIsFull(b, sb, sentences, chunkSize, overlap, repeated, q + 1);
  }

  lemma {:induction false} PiecesAgree(a: seq<string>, sa: seq<Span>, b: seq<string>, sb: seq<Span>, sentences: seq<string>,
                                       chunkSize: nat, overlap: nat, repeated: string -> string, p: nat)
    requires Packed(a, sa, sentences, chunkSize, overlap, repeated) && EndOf(sa) == |sentences|
    requires Packed(b, sb, sentences, chunkSize, overlap, repeated) && EndOf(sb) == |sentences|
    requires p < |a|
    ensures p < |b| && a[p] == b[p] && sa[p] == sb[p]
  {
    PieceIsFull(a, sa, sentences, chunkSize, overlap, repeated, p);
    if p == 0 {
      assert b != [] && sb[0].lo == 0;
    } else {
      PiecesAgree(a, sa, b, sb, sentences, chunkSize, overlap, repeated, p - 1);
      PieceStartsAgree(a, sa, b, sb, sentences, chunkSize, overlap, repeated, p - 1);
    }
    PieceEndsAgree(a, sa, b, sb, sentences, chunkSize, overlap, repeated, p);
  }

  /** There is one way only to pack the sentences. */
  lemma PiecesAreSettled(a: seq<string>, sa: seq<Span>, b: seq<string>, sb: seq<Span>, sentences: seq<string>,
                         chunkSize: nat, overlap: nat, repeated: string -> string)
    requires Packed(a, sa, sentences, chunkSize, overlap, repeated) && EndOf(sa) == |sentences|
    requires Packed(b, sb, sentences, chunkSize, overlap, repeated) && EndOf(sb) == |sentences|
    ensures a == b
  {
    forall p | 0 <= p < |a|
      ensures p < |b| && a[p] == b[p]
    {
      PiecesAgree(a, sa, b, sb, sentences, chunkSize, overlap, repeated, p);
    }
    forall p | 0 <= p < |b|
      ensures p < |a| && a[p] == b[p]
    {
      PiecesAgree(b, sb, a, sa, sentences, chunkSize, overlap, repeated, p);
    }
  }

  // ---------------------------------------------------------------------------------------
  // The chunk size is a limit on pieces exactly when nothing is carried over.

  /** Without overlap every piece respects the chunk size. */
  lemma NoOverlapNoExcess(pieces: seq<string>, spans: seq<Span>, sentences: seq<string>, chunkSize: nat)
    requires Packed(pieces, spans, sentences, chunkSize, 0, s => Repeated(s, 0))
    requires forall s :: s in sentences ==> |s| <= chunkSize
    ensures forall p :: 0 <= p < |pieces| ==> |pieces[p]| <= chunkSize
  {
    forall p | 0 <= p < |pieces|
      ensures |pieces[p]| <= chunkSize
    {
      if spans[p].hi == spans[p].lo + 1 {
        OneSentence(sentences, spans[p].lo);
        if p > 0 {
          var q := p - 1;
          assert pieces[p] == PieceFor(Repeated(pieces[q], 0), sentences, spans[p]);
        }
      }
    }
  }

  /** A sentence of n characters without white space, ended by a full stop. */
  function FullSentence(n: nat): (s: string)
    ensures |s| == n && forall i :: 0 <= i < n ==> !IsSpace(s[i])
  {
    seq(n, i => if i + 1 == n then '.' else 'x')
  }

  lemma FullSentenceRepeats(n: nat, overlap: nat)
    requires 0 < overlap <= n
    ensures |Repeated(FullSentence(n), overlap)| == overlap
  {
    var s := FullSentence(n);
    var t := Tail(s, overlap);
    assert |t| == overlap && t[0] == s[n - overlap];
  }

  lemma FullRunIsLast(spans: seq<Span>, n: nat, p: nat)
    requires Partition(spans, n) && p < |spans|
    ensures p + 1 < |spans| ==> spans[p].hi < n
  {
    var next := p + 1;
    if next < |spans| {
      assert spans[p].hi == spans[next].lo < spans[next].hi;
    }
  }

  /** The first sentence, and the second behind the end of the first. */
  function TwoPieces(chunkSize: nat, overlap: nat): seq<string> {
    var full := FullSentence(chunkSize);
    [full, Repeated(full, overlap) + " " + full]
  }

  /** With any overlap two full sentences give a piece of chunk size plus overlap plus one: the bound is reached. */
  lemma BoundIsReached(pieces: seq<string>, spans: seq<Span>, chunkSize: nat, overlap: nat)
    requires 0 < overlap < chunkSize
    requires Packed(pieces, spans, [FullSentence(chunkSize), FullSentence(chunkSize)], chunkSize, overlap, s => Repeated(s, overlap))
    requires EndOf(spans) == 2
    ensures pieces == TwoPieces(chunkSize, overlap) && |pieces[1]| == chunkSize + overlap + 1
  {
    var full := FullSentence(chunkSize);
    var sentences := [full, full];
    OneSentence(sentences, 0);
    OneSentence(sentences, 1);
    GlueNext(sentences, 0, 1);
    assert |Glue(sentences[0..2])| == 2 * chunkSize + 1;
    assert spans[0].lo == 0 && pieces[0] == PieceFor([], sentences, spans[0]);
    assert spans[0].hi == 1;
    assert |spans| > 1 && spans[1] == Span(1, 2);
    FullRunIsLast(spans, 2, 1);
    FullSentenceRepeats(chunkSize, overlap);
    assert pieces[1] == PieceFor(Repeated(pieces[0], overlap), sentences, spans[1]);
  }

  /** That is how two full sentences pack. */
  lemma TwoPiecesArePacked(chunkSize: nat, overlap: nat)
    requires 0 < overlap < chunkSize
    ensures PackedSomehow(TwoPieces(chunkSize, overlap), [FullSentence(chunkSize), FullSentence(chunkSize)], chunkSize, overlap)
  {
    var full := FullSentence(chunkSize);
    var sentences, spans, pieces := [full, full], [Span(0, 1), Span(1, 2)], TwoPieces(chunkSize, overlap);
    OneSentence(sentences, 0);
    OneSentence(sentences, 1);
    FullSentenceRepeats(chunkSize, overlap);
    assert Partition(spans, 2);
    assert Packs(pieces, spans, sentences, s => Repeated(s, overlap));
    TwoPiecesAreSentences(chunkSize, overlap);
    assert Fits(pieces, spans, chunkSize, overlap);
    assert Greedy(pieces, spans, sentences, chunkSize);
    assert Packed(pieces, spans, sentences, chunkSize, overlap, s => Repeated(s, overlap)) && EndOf(spans) == 2;
  }

  lemma TwoPiecesAreSentences(chunkSize: nat, overlap: nat)
    requires 0 < overlap < chunkSize
    ensures var pieces := TwoPieces(chunkSize, overlap); IsSentence(pieces[0]) && IsSentence(pieces[1])
  {
    var full := FullSentence(chunkSize);
    var t := Tail(full, overlap);
    assert t[0] == full[chunkSize - overlap];
    assert Repeated(full, overlap) == t;
    var second := t + " " + full;
    assert second[0] == t[0] && second[|second| - 1] == full[chunkSize - 1];
  }

  // ---------------------------------------------------------------------------------------
  // The window branch.

  function Min(a: nat, b: nat): nat { if a < b then a else b }

  function Window(text: string, start: nat, chunkSize: nat): string
    requires start < |text|
  {
    text[start..Min(start + chunkSize, |text|)]
  }

  function Kept(piece: string): seq<string> { if piece == [] then [] else [piece] }

  /** Where windows begin in `n` characters: every `step` from `start` on, up to the first window that reaches the end. */
  function Starts(n: nat, chunkSize: nat, step: nat, start: nat): (starts: seq<nat>)
    requires start < n && 0 < step <= chunkSize
    ensures starts != [] && forall k :: 0 <= k < |starts| ==> starts[k] < n
    decreases n - start
  {
    [start] + if start + chunkSize >= n then [] else Starts(n, chunkSize, step, start + step)
  }

  /** The cleaned windows at these starts, blank ones left out. */
  function PiecesAt(text: string, chunkSize: nat, starts: seq<nat>, clean: string -> string): seq<string>
    requires forall k :: 0 <= k < |starts| ==> starts[k] < |text|
  {
    if starts == [] then []
    else Kept(clean(Window(text, starts[0], chunkSize))) + PiecesAt(text, chunkSize, starts[1..], clean)
  }

  /** All windows of a text. */
  function WindowStarts(text: string, chunkSize: nat, overlap: nat): (starts: seq<nat>)
    requires overlap < chunkSize < |text|
    ensures forall k :: 0 <= k < |starts| ==> starts[k] < |text|
  {
    Starts(|text|, chunkSize, chunkSize - overlap, 0)
  }

  /** k is a divided by b, rounded up. */
  predicate IsCeilDiv(k: nat, a: nat, b: nat) {
    a <= k * b && (k > 0 ==> (k - 1) * b < a)
  }

  lemma CeilDivNext(k: nat, a: nat, b: nat)
    requires b > 0 && a > 0
    requires if a <= b then k == 0 else IsCeilDiv(k, a - b, b)
    ensures IsCeilDiv(k + 1, a, b)
  {
    assert (k + 1) * b == k * b + b;
    if k > 0 {
      assert k * b == (k - 1) * b + b;
    }
  }

  /** How many windows are visited. */
  lemma {:induction false} StartsCount(n: nat, chunkSize: nat, step: nat, start: nat)
    requires start < n && 0 < step <= chunkSize
    ensures var starts := Starts(n, chunkSize, step, start);
            if start + chunkSize >= n then |starts| == 1 else IsCeilDiv(|starts| - 1, n - chunkSize - start, step)
    decreases n - start
  {
    if start + chunkSize < n {
      StartsCount(n, chunkSize, step, start + step);
      CeilDivNext(|Starts(n, chunkSize, step, start + step)| - 1, n - chunkSize - start, step);
    }
  }

  /** The loop visits the ceiling of (n - chunkSize) / (chunkSize - overlap), plus one, windows. */
  lemma WindowCount(text: string, chunkSize: nat, overlap: nat)
    requires overlap < chunkSize < |text|
    ensures IsCeilDiv(|WindowStarts(text, chunkSize, overlap)| - 1, |text| - chunkSize, chunkSize - overlap)
  {
    StartsCount(|text|, chunkSize, chunkSize - overlap, 0);
  }

  lemma {:induction false} StartsAreSpaced(n: nat, chunkSize: nat, step: nat, start: nat, k: nat)
    requires start < n && 0 < step <= chunkSize && k < |Starts(n, chunkSize, step, start)|
    ensures Starts(n, chunkSize, step, start)[k] == start + k * step
    decreases k
  {
    if k > 0 {
      StartsAreSpaced(n, chunkSize, step, start + step, k - 1);
      assert k * step == (k - 1) * step + step;
    }
  }

  lemma PiecesOfMore(text: string, chunkSize: nat, starts: seq<nat>, start: nat, clean: string -> string)
    requires start < |text| && forall k :: 0 <= k < |starts| ==> starts[k] < |text|
    ensures PiecesAt(text, chunkSize, starts + [start], clean)
         == PiecesAt(text, chunkSize, starts, clean) + Kept(clean(Window(text, start, chunkSize)))
    decreases |starts|
  {
    if starts == [] {
      assert [] + [start] == [start] && [start][1..] == [];
    } else {
      PiecesOfMore(text, chunkSize, starts[1..], start, clean);
      assert (starts + [start])[0] == starts[0] && (starts + [start])[1..] == starts[1..] + [start];
    }
  }

  /** The loop's state: the windows visited, their pieces, and the windows still to visit. */
  ghost predicate Sliding(text: string, chunkSize: nat, overlap: nat, start: nat, visited: seq<nat>, pieces: seq<string>,
                          clean: string -> string)
    requires overlap < chunkSize < |text|
  {
    && start < |text| && (forall k :: 0 <= k < |visited| ==> visited[k] < |text|)
    && visited + Starts(|text|, chunkSize, chunkSize - overlap, start) == WindowStarts(text, chunkSize, overlap)
    && pieces == PiecesAt(text, chunkSize, visited, clean)
  }

  lemma SlideOn(text: string, chunkSize: nat, overlap: nat, start: nat, visited: seq<nat>, pieces: seq<string>, clean: string -> string)
    requires overlap < chunkSize < |text| && Sliding(text, chunkSize, overlap, start, visited, pieces, clean)
    ensures var visited', pieces' := visited + [start], pieces + Kept(clean(Window(text, start, chunkSize)));
            if start + chunkSize >= |text|
            then visited' == WindowStarts(text, chunkSize, overlap) && pieces' == PiecesAt(text, chunkSize, visited', clean)
            else Sliding(text, chunkSize, overlap, start + (chunkSize - overlap), visited', pieces', clean)
  {
    VisitOne(visited, |text|, chunkSize, chunkSize - overlap, start);
    PiecesOfMore(text, chunkSize, visited, start, clean);
  }

  /** The window loop, for any way `clean` of trimming a window: the pieces are those of the windows visited, which are all. */
  method SlideWindow(text: string, chunkSize: nat, overlap: nat, clean: string -> string)
    returns (pieces: seq<string>, ghost visited: seq<nat>)
    requires overlap < chunkSize < |text|
    ensures visited == WindowStarts(text, chunkSize, overlap)
    ensures pieces == PiecesAt(text, chunkSize, WindowStarts(text, chunkSize, overlap), clean)
  {
    pieces, visited := [], [];
    var start := 0;
    while true
      invariant Sliding(text, chunkSize, overlap, start, visited, pieces, clean)
      decreases |text| - start
    {
      SlideOn(text, chunkSize, overlap, start, visited, pieces, clean);
      var window := WindowAt(text, start, chunkSize);
      pieces := KeepPiece(pieces, clean(window));
      visited := visited + [start];
      if start + chunkSize >= |text| {
        break;
      }
      start := start + (chunkSize - overlap);
    }
  }

  lemma VisitOne(visited: seq<nat>, n: nat, chunkSize: nat, step: nat, start: nat)
    requires start < n && 0 < step <= chunkSize
    ensures start + chunkSize >= n ==> visited + Starts(n, chunkSize, step, start) == visited + [start]
    ensures start + chunkSize < n ==>
              visited + Starts(n, chunkSize, step, start) == (visited + [start]) + Starts(n, chunkSize, step, start + step)
  {
    if start + chunkSize < n {
      var rest := Starts(n, chunkSize, step, start + step);
      assert Starts(n, chunkSize, step, start) == [start] + rest;
      assert visited + ([start] + rest) == (visited + [start]) + rest;
    }
  }

  method WindowAt(text: string, start: nat, chunkSize: nat) returns (window: string)
    requires start < |text|
    ensures window == Window(text, start, chunkSize)
  {
    var end := if start + chunkSize < |text| then start + chunkSize else |text|;
    window := text[start..end];
  }

  method KeepPiece(pieces: seq<string>, piece: string) returns (more: seq<string>)
    ensures more == pieces + Kept(piece)
  {
    more := if piece != [] then pieces + [piece] else pieces;
  }

  const STRIP: string -> string := s => Strip(s)

  lemma SliceOfSlice(text: string, from: nat, to: nat, a: nat, b: nat)
    requires from <= to <= |text| && a <= b <= to - from
    ensures text[from..to][a..b] == text[from + a..from + b]
  {
    assert forall i :: 0 <= i < b - a ==> text[from..to][a..b][i] == text[from + a..from + b][i];
  }

  lemma WindowHolds(text: string, chunkSize: nat, start: nat, pos: nat) returns (lo: nat, hi: nat)
    requires start <= pos < |text| && pos < start + chunkSize && !IsSpace(text[pos])
    ensures start <= lo <= pos < hi <= Min(start + chunkSize, |text|)
    ensures Kept(Strip(Window(text, start, chunkSize))) == [text[lo..hi]]
  {
    var window := Window(text, start, chunkSize);
    var a, b := StripCuts(window);
    assert window[pos - start] == text[pos];
    lo, hi := start + a, start + b;
    SliceOfSlice(text, start, Min(start + chunkSize, |text|), a, b);
  }

  /** Some window holds the position. */
  lemma {:induction false} SomeWindowHolds(n: nat, chunkSize: nat, step: nat, start: nat, pos: nat) returns (k: nat)
    requires 0 < step <= chunkSize && start <= pos < n
    ensures var starts := Starts(n, chunkSize, step, start); k < |starts| && starts[k] <= pos < starts[k] + chunkSize
    decreases n - start
  {
    if pos < start + chunkSize {
      k := 0;
    } else {
      var later := SomeWindowHolds(n, chunkSize, step, start + step, pos);
      k := later + 1;
    }
  }

  lemma {:induction false} PieceIsKept(text: string, chunkSize: nat, starts: seq<nat>, k: nat, clean: string -> string, piece: string)
    requires (forall j :: 0 <= j < |starts| ==> starts[j] < |text|) && k < |starts|
    requires Kept(clean(Window(text, starts[k], chunkSize))) == [piece]
    ensures piece in PiecesAt(text, chunkSize, starts, clean)
    decreases k
  {
    if k > 0 {
      PieceIsKept(text, chunkSize, starts[1..], k - 1, clean, piece);
    }
  }

  /** Every character that is not white space lies in a kept piece, cut from a visited window. */
  lemma WindowsCover(text: string, chunkSize: nat, overlap: nat, pos: nat) returns (k: nat, lo: nat, hi: nat)
    requires overlap < chunkSize < |text| && pos < |text| && !IsSpace(text[pos])
    ensures var starts := WindowStarts(text, chunkSize, overlap);
            && k < |starts| && starts[k] <= lo <= pos < hi <= Min(starts[k] + chunkSize, |text|)
            && text[lo..hi] in PiecesAt(text, chunkSize, starts, STRIP)
  {
    var starts := WindowStarts(text, chunkSize, overlap);
    k := SomeWindowHolds(|text|, chunkSize, chunkSize - overlap, 0, pos);
    lo, hi := WindowHolds(text, chunkSize, starts[k], pos);
    PieceIsKept(text, chunkSize, starts, k, STRIP, text[lo..hi]);
  }

  /** Trimmed, not blank, and no longer than the chunk size. */
  ghost predicate ShortPieces(pieces: seq<string>, chunkSize: nat) {
    forall p :: p in pieces ==> IsSentence(p) && |p| <= chunkSize
  }

  lemma MoreShortPieces(a: seq<string>, b: seq<string>, chunkSize: nat)
    requires ShortPieces(a, chunkSize) && ShortPieces(b, chunkSize)
    ensures ShortPieces(a + b, chunkSize)
  {
  }

  lemma WindowIsShort(text: string, chunkSize: nat, start: nat)
    requires start < |text|
    ensures ShortPieces(Kept(Strip(Window(text, start, chunkSize))), chunkSize)
  {
    var lo, hi := StripCuts(Window(text, start, chunkSize));
  }

  /** No window gives a piece longer than the chunk size. */
  lemma {:induction false} WindowsAreShort(text: string, chunkSize: nat, starts: seq<nat>)
    requires forall k :: 0 <= k < |starts| ==> starts[k] < |text|
    ensures ShortPieces(PiecesAt(text, chunkSize, starts, STRIP), chunkSize)
    decreases |starts|
  {
    if starts != [] {
      var window := Window(text, starts[0], chunkSize);
      WindowIsShort(text, chunkSize, starts[0]);
      WindowsAreShort(text, chunkSize, starts[1..]);
      assert STRIP(window) == Strip(window);
      MoreShortPieces(Kept(STRIP(window)), PiecesAt(text, chunkSize, starts[1..], STRIP), chunkSize);
    }
  }

  // ---------------------------------------------------------------------------------------

  /** The parts stripped, blank ones left out. */
  function Sentences(parts: seq<string>): seq<string> {
    if parts == [] then [] else Kept(Strip(parts[0])) + Sentences(parts[1..])
  }

  lemma {:induction false} SentencesAreTrimmed(parts: seq<string>)
    ensures forall s :: s in Sentences(parts) ==> IsSentence(s)
  {
    if parts != [] {
      var lo, hi := StripCuts(parts[0]);
      SentencesAreTrimmed(parts[1..]);
    }
  }

  lemma {:induction false} SentencesOfMore(parts: seq<string>, part: string)
    ensures Sentences(parts + [part]) == Sentences(parts) + Kept(Strip(part))
  {
    if parts == [] {
      assert [part][1..] == [];
    } else {
      assert (parts + [part])[0] == parts[0] && (parts + [part])[1..] == parts[1..] + [part];
      SentencesOfMore(parts[1..], part);
    }
  }

  method SentencesOf(parts: seq<string>) returns (sentences: seq<string>)
    ensures sentences == Sentences(parts)
  {
    sentences := [];
    for i := 0 to |parts|
      invariant sentences == Sentences(parts[..i])
    {
      assert parts[..i + 1] == parts[..i] + [parts[i]];
      SentencesOfMore(parts[..i], parts[i]);
      sentences := KeepPiece(sentences, Strip(parts[i]));
    }
    assert parts[..|parts|] == parts;
  }

  predicate PacksBySentence(sentences: seq<string>, chunkSize: nat) {
    |sentences| > 1 && forall s :: s in sentences ==> |s| <= chunkSize
  }

  ghost predicate PackedSomehow(pieces: seq<string>, sentences: seq<string>, chunkSize: nat, overlap: nat) {
    exists spans :: Packed(pieces, spans, sentences, chunkSize, overlap, s => Repeated(s, overlap)) && EndOf(spans) == |sentences|
  }

  /** `boundary` stands for the sentence-boundary pattern: how it divides a text. */
  method SplitLongText(text: string, chunkSize: nat, overlap: nat, boundary: string -> seq<string>) returns (pieces: seq<string>)
    requires overlap < chunkSize
    ensures |text| <= chunkSize ==> pieces == [text]
    ensures |text| > chunkSize && PacksBySentence(Sentences(boundary(text)), chunkSize) ==>
              PackedSomehow(pieces, Sentences(boundary(text)), chunkSize, overlap)
    ensures |text| > chunkSize && !PacksBySentence(Sentences(boundary(text)), chunkSize) ==>
              pieces == PiecesAt(text, chunkSize, WindowStarts(text, chunkSize, overlap), STRIP)
    ensures forall p :: p in pieces ==> |p| <= chunkSize + overlap + 1
  {
    if |text| <= chunkSize {
      return [text];
    }
    var sentences := SentencesOf(boundary(text));
    SentencesAreTrimmed(boundary(text));
    if |sentences| > 1 && forall s :: s in sentences ==> |s| <= chunkSize {
      RepeatedIsOverlap(overlap);
      ghost var spans;
      pieces, spans := PackSentences(sentences, chunkSize, overlap, s => Repeated(s, overlap));
    } else {
      ghost var visited;
      pieces, visited := SlideWindow(text, chunkSize, overlap, STRIP);
      WindowsAreShort(text, chunkSize, visited);
    }
  }
}
