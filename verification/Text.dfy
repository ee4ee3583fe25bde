/** The string operations the chunker relies on: stripping, and splitting and joining paragraphs. */
module Text {

  predicate IsSpace(c: char) {
    || '\U{0009}' <= c <= '\U{000D}' || '\U{001C}' <= c <= '\U{0020}' || c == '\U{0085}' || c == '\U{00A0}'
    || c == '\U{1680}' || '\U{2000}' <= c <= '\U{200A}' || c == '\U{2028}' || c == '\U{2029}'
    || c == '\U{202F}' || c == '\U{205F}' || c == '\U{3000}'
  }

  function LStrip(s: string): string {
    if s != [] && IsSpace(s[0]) then LStrip(s[1..]) else s
  }

  function RStrip(s: string): string {
    if s != [] && IsSpace(s[|s| - 1]) then RStrip(s[..|s| - 1]) else s
  }

  function Strip(s: string): string { LStrip(RStrip(s)) }

  /** Neither end is white space. */
  predicate Trimmed(s: string) { s != [] ==> !IsSpace(s[0]) && !IsSpace(s[|s| - 1]) }

  predicate SpaceIn(s: string, lo: nat, hi: nat)
    requires lo <= hi <= |s|
  {
    forall i :: lo <= i < hi ==> IsSpace(s[i])
  }

  lemma {:induction false} LStripDrops(s: string) returns (n: nat)
    ensures n <= |s| && LStrip(s) == s[n..] && SpaceIn(s, 0, n)
    ensures n < |s| ==> !IsSpace(s[n])
  {
    if s != [] && IsSpace(s[0]) {
      var k := LStripDrops(s[1..]);
      n := k + 1;
      assert s[1..][k..] == s[n..];
      assert forall i :: 1 <= i < n ==> s[i] == s[1..][i - 1];
    } else {
      n := 0;
    }
  }

  lemma {:induction false} RStripDrops(s: string) returns (n: nat)
    ensures n <= |s| && RStrip(s) == s[..n] && SpaceIn(s, n, |s|)
    ensures n > 0 ==> !IsSpace(s[n - 1])
  {
    if s != [] && IsSpace(s[|s| - 1]) {
      var t := s[..|s| - 1];
      n := RStripDrops(t);
      assert t[..n] == s[..n];
      assert forall i :: n <= i < |t| ==> s[i] == t[i];
    } else {
      n := |s|;
    }
  }

  lemma SliceOfPrefix(s: string, lo: nat, hi: nat)
    requires lo <= hi <= |s|
    ensures s[..hi][lo..] == s[lo..hi]
  {
  }

  lemma SpaceInPrefix(s: string, lo: nat, hi: nat)
    requires lo <= hi <= |s| && SpaceIn(s[..hi], 0, lo)
    ensures SpaceIn(s, 0, lo)
  {
    assert forall i :: 0 <= i < lo ==> s[i] == s[..hi][i];
  }

  /** What stripping does: cut white space, and nothing else, off both ends. */
  lemma StripDrops(s: string) returns (lo: nat, hi: nat)
    ensures lo <= hi <= |s| && Strip(s) == s[lo..hi]
    ensures SpaceIn(s, 0, lo) && SpaceIn(s, hi, |s|)
    ensures lo < hi ==> !IsSpace(s[lo]) && !IsSpace(s[hi - 1])
  {
    hi := RStripDrops(s);
    lo := LStripDrops(s[..hi]);
    SliceOfPrefix(s, lo, hi);
    SpaceInPrefix(s, lo, hi);
  }

  lemma StripCuts(s: string) returns (lo: nat, hi: nat)
    ensures lo <= hi <= |s| && Strip(s) == s[lo..hi] && Trimmed(Strip(s))
    ensures forall i :: 0 <= i < |s| && !IsSpace(s[i]) ==> lo <= i < hi
  {
    lo, hi := StripDrops(s);
    if lo < hi {
      assert s[lo..hi][0] == s[lo] && s[lo..hi][hi - lo - 1] == s[hi - 1];
    }
  }

  lemma TrimmedStripsToItself(s: string)
    requires Trimmed(s)
    ensures Strip(s) == s && LStrip(s) == s
  {
  }

  lemma LeadingBlank(s: string)
    requires Trimmed(s) && s != []
    ensures Strip([' '] + s) == s
  {
    assert ([' '] + s)[1..] == s;
    var t := [' '] + s;
    assert t[|t| - 1] == s[|s| - 1] && RStrip(t) == t;
    assert LStrip(t) == LStrip(t[1..]) == LStrip(s);
  }

  // ---------------------------------------------------------------------------------------
  // Paragraphs: what a blank line separates.

  /** Where the first "\n\n" begins, or the length of the text. */
  function FirstBreak(s: string): (b: nat)
    ensures b <= |s|
  {
    if |s| < 2 then |s|
    else if s[0] == '\n' && s[1] == '\n' then 0
    else 1 + FirstBreak(s[1..])
  }

  lemma {:induction false} FirstBreakIsBreak(s: string)
    ensures FirstBreak(s) < |s| ==> FirstBreak(s) + 2 <= |s|
    ensures FirstBreak(s[..FirstBreak(s)]) == FirstBreak(s)
  {
    if |s| >= 2 && !(s[0] == '\n' && s[1] == '\n') {
      FirstBreakIsBreak(s[1..]);
      var b := FirstBreak(s[1..]);
      assert s[..b + 1][1..] == s[1..][..b];
    }
  }

  predicate NoBreak(s: string) { FirstBreak(s) == |s| }

  function Split(s: string): (parts: seq<string>)
    ensures parts != []
    decreases |s|
  {
    var b := FirstBreak(s);
    if b + 2 <= |s| then [s[..b]] + Split(s[b + 2..]) else [s]
  }

  function Join(parts: seq<string>): string {
    if parts == [] then []
    else if |parts| == 1 then parts[0]
    else parts[0] + "\n\n" + Join(parts[1..])
  }

  lemma {:induction false} SplitPartsHaveNoBreak(s: string)
    ensures forall p :: p in Split(s) ==> NoBreak(p)
    decreases |s|
  {
    var b := FirstBreak(s);
    FirstBreakIsBreak(s);
    if b + 2 <= |s| {
      SplitPartsHaveNoBreak(s[b + 2..]);
    }
  }

  lemma SliceOfTail(s: string, lo: nat, hi: nat)
    requires 0 < lo <= hi <= |s|
    ensures s[1..][lo - 1..hi - 1] == s[lo..hi]
  {
    assert forall i :: 0 <= i < hi - lo ==> s[1..][lo - 1..hi - 1][i] == s[lo..hi][i];
  }

  lemma TailOfPrefix(s: string, hi: nat)
    requires 0 < hi <= |s|
    ensures s[0..hi][1..] == s[1..][0..hi - 1]
  {
    assert forall i :: 0 <= i < hi - 1 ==> s[0..hi][1..][i] == s[1..][0..hi - 1][i];
  }

  /** A cut-out of a text without blank lines has none. */
  lemma {:induction false} NoBreakInside(s: string, lo: nat, hi: nat)
    requires lo <= hi <= |s| && NoBreak(s)
    ensures NoBreak(s[lo..hi])
    decreases |s|, hi - lo
  {
    if hi - lo >= 2 {
      if lo > 0 {
        SliceOfTail(s, lo, hi);
        NoBreakInside(s[1..], lo - 1, hi - 1);
      } else {
        TailOfPrefix(s, hi);
        NoBreakInside(s[1..], 0, hi - 1);
      }
    }
  }

  /** A separator right after a part that does not end in a newline is the first one. */
  lemma {:induction false} BreakAfterPart(p: string, rest: string)
    requires NoBreak(p) && p != [] && p[|p| - 1] != '\n'
    ensures FirstBreak(p + "\n\n" + rest) == |p|
    decreases |p|
  {
    var s := p + "\n\n" + rest;
    assert s[1..] == p[1..] + "\n\n" + rest;
    if |p| > 1 {
      BreakAfterPart(p[1..], rest);
    } else {
      assert s[1..] == "\n\n" + rest;
      assert s[1..][0] == '\n' && s[1..][1] == '\n';
    }
  }

  predicate IsParagraph(p: string) { p != [] && Trimmed(p) && NoBreak(p) }

  /** Joining trimmed paragraphs with a blank line and splitting again gives them back. */
  lemma {:induction false} SplitJoin(parts: seq<string>)
    requires parts != [] && forall p :: p in parts ==> IsParagraph(p)
    ensures Split(Join(parts)) == parts
  {
    var p := parts[0];
    assert p in parts;
    if |parts| == 1 {
      assert Join(parts) == p;
    } else {
      var rest := Join(parts[1..]);
      assert !IsSpace(p[|p| - 1]) ==> p[|p| - 1] != '\n';
      BreakAfterPart(p, rest);
      assert (p + "\n\n" + rest)[..|p|] == p && (p + "\n\n" + rest)[|p| + 2..] == rest;
      SplitJoin(parts[1..]);
    }
  }
}
