/** The arithmetic and text helpers of the formatting utilities: rounding, truncation, discounts, cents. */
module Formatters {
  import opened Text

  /** `Math.round`: the nearest integer, a half rounded up towards +infinity. */
  function Round(x: real): (r: int)
    ensures x - 0.5 < r as real <= x + 0.5
  {
    (x + 0.5).Floor
  }

  /** Rounding an integral value gives it back. */
  lemma RoundIntegral(n: int)
    ensures Round(n as real) == n
  {
  }

  /** The end index that `text.slice(0, end)` uses: a negative end counts from the back. */
  function SliceEnd(len: nat, end: int): (k: nat)
    ensures k <= len
    ensures 0 <= end <= len ==> k == end
    ensures end < 0 ==> k == if len + end < 0 then 0 else len + end
  {
    if end < 0 then (if len + end < 0 then 0 else len + end)
    else if end > len then len
    else end
  }

  /**
   * The code points `text.slice(0, end)` keeps: the slice end counts UTF-16 code units, and a
   * code point whose two units straddle it is dropped.
   */
  function Utf16Slice(text: string, end: int): (cut: string)
    ensures |cut| <= |text| && cut == text[..|cut|]
    ensures Utf16Len(cut) <= SliceEnd(Utf16Len(text), end)
    ensures |cut| < |text| ==> Utf16Len(text[..|cut| + 1]) > SliceEnd(Utf16Len(text), end)
  {
    text[..Utf16Prefix(text, SliceEnd(Utf16Len(text), end))]
  }

  /**
   * `truncate(text, length)`: text of at most `length` code units is kept; longer text is
   * cut at `length` units, trimmed, and given "...".
   */
  function Truncate(text: string, length: int): (r: string)
    ensures Utf16Len(text) <= length ==> r == text
    ensures Utf16Len(text) > length ==>
      |r| >= 3 && r[|r| - 3..] == "..." && IsTrimOf(r[..|r| - 3], Utf16Slice(text, length))
    ensures Utf16Len(text) > length && length >= 0 ==> Utf16Len(r) <= length + 3
  {
    if Utf16Len(text) <= length then text
    else
      var cut := Utf16Slice(text, length);
      var kept := Trim(cut);
      TrimUnits(kept, cut);
      Utf16LenAppend(kept, "...");
      assert (kept + "...")[..|kept|] == kept;
      kept + "..."
  }

  /**
   * Lengths are code units: two characters outside the Basic Multilingual Plane (two emoji,
   * say) are four units long, and a cut at two units keeps one of them.
   */
  lemma TruncateCountsCodeUnits(c: char)
    requires c as int > 0xFFFF
    ensures Truncate([c, c], 4) == [c, c]
    ensures Truncate([c, c], 2) == [c] + "..."
  {
    var one, two := [c], [c, c];
    assert one[..0] == [];
    assert Utf16Len(one) == 2;
    assert two[..1] == one && two[..2] == two;
    assert Utf16Len(two) == 4;
    assert Utf16Len(two[..1]) == 2;
    assert Utf16Slice(two, 2) == one;
    TrimNoSpace(one);
  }

  /** A trimmed string has no more code units than the string it was trimmed from. */
  lemma TrimUnits(r: string, s: string)
    requires IsTrimOf(r, s)
    ensures Utf16Len(r) <= Utf16Len(s)
  {
    var i, j :| 0 <= i <= j <= |s| && SliceBetweenSpace(r, s, i, j);
    assert s == s[..i] + r + s[j..];
    Utf16LenAppend(s[..i], r);
    Utf16LenAppend(s[..i] + r, s[j..]);
  }

  /** `calculateDiscountPercentage(originalPrice, salePrice)`. */
  function DiscountPercentage(originalPrice: real, salePrice: real): (r: int)
    ensures originalPrice <= 0.0 ==> r == 0
    ensures originalPrice > 0.0 ==>
      var exact := (originalPrice - salePrice) / originalPrice * 100.0;
      exact - 0.5 < r as real <= exact + 0.5
  {
    if originalPrice <= 0.0 then 0
    else Round((originalPrice - salePrice) / originalPrice * 100.0)
  }

  /** No reduction gives 0 %, a free item gives 100 %. */
  lemma DiscountEdges(originalPrice: real)
    requires originalPrice > 0.0
    ensures DiscountPercentage(originalPrice, originalPrice) == 0
    ensures DiscountPercentage(originalPrice, 0.0) == 100
  {
    assert (originalPrice - originalPrice) / originalPrice * 100.0 == 0.0;
    assert (originalPrice - 0.0) / originalPrice * 100.0 == 100.0;
    RoundIntegral(0);
    RoundIntegral(100);
  }

  /** A sale price between 0 and the original price gives a percentage between 0 and 100. */
  lemma DiscountBounded(originalPrice: real, salePrice: real)
    requires 0.0 <= salePrice <= originalPrice && originalPrice > 0.0
    ensures 0 <= DiscountPercentage(originalPrice, salePrice) <= 100
  {
    var f := (originalPrice - salePrice) / originalPrice;
    assert f * originalPrice == originalPrice - salePrice;
    assert 0.0 <= f <= 1.0;
  }

  /** `centsToAmount(cents)`. */
  function CentsToAmount(cents: real): (amount: real)
    ensures amount * 100.0 == cents
  {
    cents / 100.0
  }

  /** `amountToCents(amount)`. */
  function AmountToCents(amount: real): (cents: int)
    ensures amount * 100.0 - 0.5 < cents as real <= amount * 100.0 + 0.5
  {
    Round(amount * 100.0)
  }

  /** In exact arithmetic, converting whole cents to an amount and back is lossless. */
  lemma CentsRoundTrip(cents: int)
    ensures AmountToCents(CentsToAmount(cents as real)) == cents
  {
    RoundIntegral(cents);
  }
}
