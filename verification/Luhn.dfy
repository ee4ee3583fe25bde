/** The card-number checksum of the training-data scan, and the errors it detects. */
module Luhn {

  type Digit = d: nat | d <= 9

  /** A digit's part of the sum: itself, or the sum of the digits of its double. */
  function Weigh(digit: Digit, doubled: bool): Digit {
    if !doubled then digit else if digit * 2 > 9 then digit * 2 - 9 else digit * 2
  }

  /** The sum of the digits from the right, every second one doubled; says whether the last one is. */
  function ChecksumFrom(digits: seq<Digit>, doubled: bool): nat {
    if digits == [] then 0
    else
      var last := |digits| - 1;
      Weigh(digits[last], doubled) + ChecksumFrom(digits[..last], !doubled)
  }

  function Checksum(digits: seq<Digit>): nat { ChecksumFrom(digits, false) }

  predicate Checks(digits: seq<Digit>) { Checksum(digits) % 10 == 0 }

  method PassesLuhn(value: seq<Digit>) returns (passes: bool)
    ensures passes == (13 <= |value| <= 19 && Checks(value))
  {
    if !(13 <= |value| <= 19) {
      return false;
    }
    var checksum := 0;
    assert value[..|value| - 0] == value;
    for index := 0 to |value|
      invariant checksum + ChecksumFrom(value[..|value| - index], index % 2 == 1) == Checksum(value)
    {
      var last := |value| - index - 1;
      assert value[..last + 1][..last] == value[..last];
      var number: int := value[last];
      if index % 2 == 1 {
        number := number * 2;
        if number > 9 {
          number := number - 9;
        }
      }
      checksum := checksum + number;
    }
    passes := checksum % 10 == 0;
  }

  // ---------------------------------------------------------------------------------------

  /** Whether the digit `n` places to the left is doubled, given whether this one is. */
  predicate Ahead(doubled: bool, n: nat) { if n == 0 then doubled else !Ahead(doubled, n - 1) }

  lemma {:induction false} AheadFromNext(doubled: bool, n: nat)
    ensures Ahead(!doubled, n) == Ahead(doubled, n + 1)
  {
    if n > 0 {
      AheadFromNext(doubled, n - 1);
    }
  }

  lemma {:induction false} ChecksumSplits(a: seq<Digit>, b: seq<Digit>, doubled: bool)
    ensures ChecksumFrom(a + b, doubled) == ChecksumFrom(b, doubled) + ChecksumFrom(a, Ahead(doubled, |b|))
  {
    if b == [] {
      assert a + b == a;
    } else {
      var last := |b| - 1;
      ChecksumSplits(a, b[..last], !doubled);
      AheadFromNext(doubled, last);
      assert (a + b)[..|a| + last] == a + b[..last];
    }
  }

  lemma ChecksumOfOneMore(a: seq<Digit>, d: Digit, doubled: bool)
    ensures ChecksumFrom(a + [d], doubled) == Weigh(d, doubled) + ChecksumFrom(a, !doubled)
  {
    assert (a + [d])[..|a|] == a;
  }

  /** The sum around one digit. */
  lemma ChecksumAround(a: seq<Digit>, d: Digit, b: seq<Digit>)
    ensures var doubled := Ahead(false, |b|);
            Checksum(a + [d] + b) == Checksum(b) + Weigh(d, doubled) + ChecksumFrom(a, !doubled)
  {
    ChecksumSplits(a + [d], b, false);
    ChecksumOfOneMore(a, d, Ahead(false, |b|));
  }

  lemma SameSum(x: nat, y: nat, rest: nat)
    requires x <= 9 && y <= 9 && (x + rest) % 10 == (y + rest) % 10
    ensures x == y
  {
  }

  /** Changing one digit, whichever and wherever, is detected. */
  lemma ChangedDigitIsDetected(a: seq<Digit>, d: Digit, e: Digit, b: seq<Digit>)
    requires d != e && Checks(a + [d] + b)
    ensures !Checks(a + [e] + b)
  {
    var doubled := Ahead(false, |b|);
    ChecksumAround(a, d, b);
    ChecksumAround(a, e, b);
    assert Weigh(d, doubled) != Weigh(e, doubled);
    if Checks(a + [e] + b) {
      SameSum(Weigh(d, doubled), Weigh(e, doubled), Checksum(b) + ChecksumFrom(a, !doubled));
    }
  }

  /** The pair's part of the sum, the left digit doubled if the right one is not. */
  function PairSum(d: Digit, e: Digit, doubled: bool): nat { Weigh(e, doubled) + Weigh(d, !doubled) }

  lemma ChecksumAroundPair(a: seq<Digit>, d: Digit, e: Digit, b: seq<Digit>)
    ensures var doubled := Ahead(false, |b|);
            Checksum(a + [d, e] + b) == Checksum(b) + PairSum(d, e, doubled) + ChecksumFrom(a, doubled)
  {
    assert a + [d, e] + b == (a + [d]) + [e] + b;
    ChecksumAround(a + [d], e, b);
    ChecksumOfOneMore(a, d, !Ahead(false, |b|));
  }

  predicate ZeroAndNine(d: Digit, e: Digit) { (d == 0 && e == 9) || (d == 9 && e == 0) }

  lemma SwappedPair(d: Digit, e: Digit, doubled: bool)
    ensures PairSum(d, e, doubled) == PairSum(e, d, doubled) <==> d == e || ZeroAndNine(d, e)
    ensures -10 < PairSum(d, e, doubled) - PairSum(e, d, doubled) < 10
  {
  }

  lemma SameRemainder(x: nat, y: nat, rest: nat)
    requires -10 < x - y < 10
    ensures (x + rest) % 10 == (y + rest) % 10 <==> x == y
  {
  }

  /** Swapping two adjacent digits of a number that checks goes unnoticed exactly when they are equal, or 0 and 9. */
  lemma SwapIsDetectedExceptZeroNine(a: seq<Digit>, d: Digit, e: Digit, b: seq<Digit>)
    requires Checks(a + [d, e] + b)
    ensures Checks(a + [e, d] + b) <==> d == e || ZeroAndNine(d, e)
  {
    var doubled := Ahead(false, |b|);
    ChecksumAroundPair(a, d, e, b);
    ChecksumAroundPair(a, e, d, b);
    SwappedPair(d, e, doubled);
    SameRemainder(PairSum(d, e, doubled), PairSum(e, d, doubled), Checksum(b) + ChecksumFrom(a, doubled));
  }

  function CheckDigit(prefix: seq<Digit>): Digit { (10 - ChecksumFrom(prefix, true) % 10) % 10 }

  lemma Complement(d: Digit, sum: nat)
    ensures (d + sum) % 10 == 0 <==> d == (10 - sum % 10) % 10
  {
  }

  /** Every prefix has exactly one final digit that makes it check. */
  lemma OneCheckDigit(prefix: seq<Digit>, d: Digit)
    ensures Checks(prefix + [d]) <==> d == CheckDigit(prefix)
  {
    ChecksumOfOneMore(prefix, d, false);
    Complement(d, ChecksumFrom(prefix, true));
  }
}
