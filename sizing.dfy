/** The two clamps of the text layout: the font size derived from the text's
    length and the smaller canvas dimension, and the sampling stride
    `pixelSkip` derived from the canvas area. */
module Sizing {
  import Arith

  const MinFontSize: real := 20.0
  const MaxFontSize: real := 180.0
  /** Width of one glyph, as a fraction of the font size, assumed by the layout. */
  const GlyphWidth: real := 0.4

  const IdealParticleCount: nat := 2000
  const MinPixelSkip: int := 4
  const MaxPixelSkip: int := 10
  /** Floor applied to the rounded root before the clamp. */
  const PixelSkipFloor: int := 2

  function MinNat(a: nat, b: nat): nat { if a <= b then a else b }
  function MaxReal(a: real, b: real): real { if a >= b then a else b }
  function MinReal(a: real, b: real): real { if a <= b then a else b }
  function MaxInt(a: int, b: int): int { if a >= b then a else b }
  function MinInt(a: int, b: int): int { if a <= b then a else b }

  /** `Math.max(20, Math.min(minDimension / (length * 0.4), 180))`. */
  function FontSize(minDimension: nat, textLength: nat): (size: real)
    requires textLength >= 1
    ensures MinFontSize <= size <= MaxFontSize
  {
    var raw := minDimension as real / (textLength as real * GlyphWidth);
    MaxReal(MinFontSize, MinReal(raw, MaxFontSize))
  }

  /** The length of `s` as JavaScript's `text.length` counts it: in UTF-16
      code units, so a code point above U+FFFF counts twice. */
  function Utf16Length(s: string): (n: nat)
    ensures |s| <= n <= 2 * |s|
  {
    if s == [] then 0 else (if s[0] as int >= 0x1_0000 then 2 else 1) + Utf16Length(s[1..])
  }

  /** Within the Basic Multilingual Plane the two lengths agree. */
  lemma {:induction false} Utf16LengthInBasicPlane(s: string)
    requires forall i :: 0 <= i < |s| ==> s[i] as int < 0x1_0000
    ensures Utf16Length(s) == |s|
  {
    if s != [] {
      assert s[0] as int < 0x1_0000;
      Utf16LengthInBasicPlane(s[1..]);
    }
  }

  /** Five mathematical bold capitals (U+1D400..U+1D404) are ten code units,
      so on an 800 by 600 canvas their font is 600 / 4 = 150, not the 180 a
      count of five would give. */
  lemma FontSizeForAstralText()
    ensures var s := "\U{1D400}\U{1D401}\U{1D402}\U{1D403}\U{1D404}";
      Utf16Length(s) == 10 && FontSize(MinNat(800, 600), Utf16Length(s)) == 150.0
      && FontSize(MinNat(800, 600), |s|) == 180.0
  {
    var s := "\U{1D400}\U{1D401}\U{1D402}\U{1D403}\U{1D404}";
    assert Utf16Length(s[4..]) == 2;
    assert Utf16Length(s[3..]) == 4;
    assert Utf16Length(s[2..]) == 6;
    assert Utf16Length(s[1..]) == 8;
  }

  /** A longer text never gets a larger font. */
  lemma FontSizeShrinksWithLength(minDimension: nat, shorter: nat, longer: nat)
    requires 1 <= shorter <= longer
    ensures FontSize(minDimension, longer) <= FontSize(minDimension, shorter)
  {
    var m := minDimension as real;
    var ds, dl := shorter as real * GlyphWidth, longer as real * GlyphWidth;
    assert 0.0 < ds <= dl;
    Arith.DivAntitone(m, ds, dl);
  }

  /** A larger canvas never gets a smaller font. */
  lemma FontSizeGrowsWithCanvas(smaller: nat, larger: nat, textLength: nat)
    requires smaller <= larger && textLength >= 1
    ensures FontSize(smaller, textLength) <= FontSize(larger, textLength)
  {
    var d := textLength as real * GlyphWidth;
    assert smaller as real / d <= larger as real / d by {
      assert smaller as real / d * d == smaller as real;
      assert larger as real / d * d == larger as real;
    }
  }

  /** Two letters on an 800 by 600 canvas: 600 / 0.8 = 750 is clamped to 180. */
  lemma FontSizeForTwoLetters()
    ensures FontSize(MinNat(800, 600), 2) == 180.0
  {
  }

  /** `Math.round(Math.sqrt(area / 2000))` in exact arithmetic: the nearest
      integer to the square root, halves rounded up. */
  function RoundedRoot(area: nat): (n: nat)
    ensures 4 * area < (2 * n + 1) * (2 * n + 1) * IdealParticleCount
    ensures n >= 1 ==> (2 * n - 1) * (2 * n - 1) * IdealParticleCount <= 4 * area
  {
    RoundedRootFrom(area, 0)
  }

  function RoundedRootFrom(area: nat, n: nat): (r: nat)
    requires n <= area
    requires n >= 1 ==> (2 * n - 1) * (2 * n - 1) * IdealParticleCount <= 4 * area
    ensures 4 * area < (2 * r + 1) * (2 * r + 1) * IdealParticleCount
    ensures r >= 1 ==> (2 * r - 1) * (2 * r - 1) * IdealParticleCount <= 4 * area
    decreases area - n
  {
    if 4 * area < (2 * n + 1) * (2 * n + 1) * IdealParticleCount then n
    else
      assert n + 1 <= area by {
        Arith.MulMono(1, 2 * n + 1, 2 * n + 1);
      }
      RoundedRootFrom(area, n + 1)
  }

  /** The rounded root never decreases as the area grows. */
  lemma RoundedRootMonotone(a: nat, b: nat)
    requires a <= b
    ensures RoundedRoot(a) <= RoundedRoot(b)
  {
    var na, nb := RoundedRoot(a), RoundedRoot(b);
    if nb < na {
      // (2 nb + 1)^2 <= (2 na - 1)^2, which squeezes 4b below 4a
      Arith.MulMono(2 * nb + 1, 2 * na - 1, 2 * nb + 1);
      Arith.MulMono(2 * nb + 1, 2 * na - 1, 2 * na - 1);
      Arith.MulMono((2 * nb + 1) * (2 * nb + 1), (2 * na - 1) * (2 * na - 1), IdealParticleCount);
      assert false;
    }
  }

  /** `Math.max(2, rounded)`. */
  function CalculatedPixelSkip(rounded: int): (c: int)
    ensures c >= PixelSkipFloor && c >= rounded
    ensures c == PixelSkipFloor || c == rounded
  {
    MaxInt(PixelSkipFloor, rounded)
  }

  /** `Math.min(10, Math.max(4, calculated))`. */
  function PixelSkip(calculated: int): (skip: int)
    ensures MinPixelSkip <= skip <= MaxPixelSkip
    ensures MinPixelSkip <= calculated <= MaxPixelSkip ==> skip == calculated
  {
    MinInt(MaxPixelSkip, MaxInt(MinPixelSkip, calculated))
  }

  lemma PixelSkipMonotone(c: int, d: int)
    requires c <= d
    ensures PixelSkip(c) <= PixelSkip(d)
  {
  }

  /** The stride used for a canvas of the given area. */
  function PixelSkipForArea(area: nat): (skip: nat)
    ensures MinPixelSkip <= skip <= MaxPixelSkip
  {
    PixelSkip(CalculatedPixelSkip(RoundedRoot(area)))
  }

  /** A larger canvas is never sampled more densely. */
  lemma PixelSkipForAreaMonotone(a: nat, b: nat)
    requires a <= b
    ensures PixelSkipForArea(a) <= PixelSkipForArea(b)
  {
    RoundedRootMonotone(a, b);
  }

  /** The floor of 2 never decides the stride: the clamp at 4 dominates it. */
  lemma FloorIsSubsumed(rounded: int)
    ensures PixelSkip(CalculatedPixelSkip(rounded)) == PixelSkip(rounded)
  {
  }
}
