/**
 * Byte-order conversion between the two pixel layouts: a fixed permutation
 * of the four bytes of every pixel. No alpha arithmetic is performed.
 */
module Convert {
  import opened Common
  import opened Format

  /** A conversion is needed exactly when the two layouts differ. */
  function NeedsConversion(src: PixelFormat, dst: PixelFormat): bool {
    src != dst
  }

  /**
   * A conversion is needed exactly for the two ordered pairs that the
   * dispatch in `Convert` implements, so it never reaches its unreachable arm.
   */
  lemma NeedsConversionExactlyForSupportedPairs(src: PixelFormat, dst: PixelFormat)
    ensures NeedsConversion(src, dst) <==>
      (src == Prgb8 && dst == Rgba8) || (src == Rgba8 && dst == Prgb8)
    ensures !NeedsConversion(src, src)
  {
  }

  /** A, R, G, B pixels rewritten as R, G, B, A, chunk by chunk. */
  function PrgbToRgba(s: seq<byte>): (r: seq<byte>)
    requires |s| % 4 == 0
    ensures |r| == |s|
    decreases |s|
  {
    if |s| == 0 then [] else [s[1], s[2], s[3], s[0]] + PrgbToRgba(s[4..])
  }

  /** R, G, B, A pixels rewritten as A, R, G, B, chunk by chunk. */
  function RgbaToPrgb(s: seq<byte>): (r: seq<byte>)
    requires |s| % 4 == 0
    ensures |r| == |s|
    decreases |s|
  {
    if |s| == 0 then [] else [s[3], s[0], s[1], s[2]] + RgbaToPrgb(s[4..])
  }

  /** The byte mapping of pixel `p` under `PrgbToRgba`. */
  lemma {:induction false} PrgbToRgbaAt(s: seq<byte>, p: nat)
    requires |s| % 4 == 0 && p < |s| / 4
    ensures PrgbToRgba(s)[4 * p] == s[4 * p + 1]
    ensures PrgbToRgba(s)[4 * p + 1] == s[4 * p + 2]
    ensures PrgbToRgba(s)[4 * p + 2] == s[4 * p + 3]
    ensures PrgbToRgba(s)[4 * p + 3] == s[4 * p]
  {
    if p > 0 {
      PrgbToRgbaAt(s[4..], p - 1);
    }
  }

  /** The byte mapping of pixel `p` under `RgbaToPrgb`. */
  lemma {:induction false} RgbaToPrgbAt(s: seq<byte>, p: nat)
    requires |s| % 4 == 0 && p < |s| / 4
    ensures RgbaToPrgb(s)[4 * p] == s[4 * p + 3]
    ensures RgbaToPrgb(s)[4 * p + 1] == s[4 * p]
    ensures RgbaToPrgb(s)[4 * p + 2] == s[4 * p + 1]
    ensures RgbaToPrgb(s)[4 * p + 3] == s[4 * p + 2]
  {
    if p > 0 {
      RgbaToPrgbAt(s[4..], p - 1);
    }
  }

  /** Converting a concatenation of whole pixels converts each part. */
  lemma {:induction false} PrgbToRgbaAppend(a: seq<byte>, b: seq<byte>)
    requires |a| % 4 == 0 && |b| % 4 == 0
    ensures PrgbToRgba(a + b) == PrgbToRgba(a) + PrgbToRgba(b)
    decreases |a|
  {
    if |a| > 0 {
      assert (a + b)[4..] == a[4..] + b;
      PrgbToRgbaAppend(a[4..], b);
    } else {
      assert a + b == b;
    }
  }

  lemma {:induction false} RgbaToPrgbAppend(a: seq<byte>, b: seq<byte>)
    requires |a| % 4 == 0 && |b| % 4 == 0
    ensures RgbaToPrgb(a + b) == RgbaToPrgb(a) + RgbaToPrgb(b)
    decreases |a|
  {
    if |a| > 0 {
      assert (a + b)[4..] == a[4..] + b;
      RgbaToPrgbAppend(a[4..], b);
    } else {
      assert a + b == b;
    }
  }

  /** One more converted pixel extends a converted prefix of whole pixels. */
  lemma PrgbToRgbaStep(src: seq<byte>, i: nat, d: seq<byte>)
    requires i % 4 == 0 && i + 4 <= |src| && |d| == i + 4
    requires d[..i] == PrgbToRgba(src[..i])
    requires d[i..] == [src[i + 1], src[i + 2], src[i + 3], src[i]]
    ensures d == PrgbToRgba(src[..i + 4])
  {
    PrgbToRgbaAppend(src[..i], src[i..i + 4]);
    assert src[..i + 4] == src[..i] + src[i..i + 4];
    assert d == d[..i] + d[i..];
  }

  lemma RgbaToPrgbStep(src: seq<byte>, i: nat, d: seq<byte>)
    requires i % 4 == 0 && i + 4 <= |src| && |d| == i + 4
    requires d[..i] == RgbaToPrgb(src[..i])
    requires d[i..] == [src[i + 3], src[i], src[i + 1], src[i + 2]]
    ensures d == RgbaToPrgb(src[..i + 4])
  {
    RgbaToPrgbAppend(src[..i], src[i..i + 4]);
    assert src[..i + 4] == src[..i] + src[i..i + 4];
    assert d == d[..i] + d[i..];
  }

  /** A, R, G, B -> R, G, B, A -> A, R, G, B is the identity. */
  lemma {:induction false} PrgbRoundTrip(s: seq<byte>)
    requires |s| % 4 == 0
    ensures RgbaToPrgb(PrgbToRgba(s)) == s
    decreases |s|
  {
    if |s| > 0 {
      var t := PrgbToRgba(s);
      assert t[4..] == PrgbToRgba(s[4..]);
      PrgbRoundTrip(s[4..]);
      assert s == s[..4] + s[4..];
    }
  }

  /** R, G, B, A -> A, R, G, B -> R, G, B, A is the identity. */
  lemma {:induction false} RgbaRoundTrip(s: seq<byte>)
    requires |s| % 4 == 0
    ensures PrgbToRgba(RgbaToPrgb(s)) == s
    decreases |s|
  {
    if |s| > 0 {
      var t := RgbaToPrgb(s);
      assert t[4..] == RgbaToPrgb(s[4..]);
      RgbaRoundTrip(s[4..]);
      assert s == s[..4] + s[4..];
    }
  }

  /** The conversion `Convert` dispatches to for an ordered pair of differing layouts. */
  function Converted(from: PixelFormat, to: PixelFormat, s: seq<byte>): (r: seq<byte>)
    requires NeedsConversion(from, to)
    requires |s| % 4 == 0
    ensures |r| == |s|
  {
    if from == Prgb8 then PrgbToRgba(s) else RgbaToPrgb(s)
  }

  /** Converting there and back again restores the original bytes. */
  lemma ConvertedRoundTrip(from: PixelFormat, to: PixelFormat, s: seq<byte>)
    requires NeedsConversion(from, to)
    requires |s| % 4 == 0
    ensures Converted(to, from, Converted(from, to, s)) == s
  {
    if from == Prgb8 {
      PrgbRoundTrip(s);
    } else {
      RgbaRoundTrip(s);
    }
  }

  /** The single-pixel, multi-pixel and empty-buffer cases of the unit tests. */
  lemma ConversionExamples()
    ensures PrgbToRgba([255, 128, 64, 32]) == [128, 64, 32, 255]
    ensures RgbaToPrgb([128, 64, 32, 255]) == [255, 128, 64, 32]
    ensures PrgbToRgba([255, 255, 0, 0, 255, 0, 255, 0, 255, 0, 0, 255])
         == [255, 0, 0, 255, 0, 255, 0, 255, 0, 0, 255, 255]
    ensures PrgbToRgba([]) == [] && RgbaToPrgb([]) == []
  {
    var multi: seq<byte> := [255, 255, 0, 0, 255, 0, 255, 0, 255, 0, 0, 255];
    assert multi[4..][4..][4..] == [];
  }

  /**
   * Writes the R, G, B, A form of the A, R, G, B pixels `src` into `dst`;
   * the lengths must agree and be a whole number of pixels. Every byte of
   * `dst` is overwritten with a value taken from `src` alone.
   */
  method ConvertPrgbToRgba(src: seq<byte>, dst: array<byte>)
    requires |src| == dst.Length
    requires |src| % 4 == 0
    modifies dst
    ensures dst[..] == PrgbToRgba(src)
  {
    var i := 0;
    while i < |src|
      invariant 0 <= i <= |src| && i % 4 == 0
      invariant dst[..i] == PrgbToRgba(src[..i])
      decreases |src| - i
    {
      ghost var done := dst[..i];
      dst[i] := src[i + 1];
      dst[i + 1] := src[i + 2];
      dst[i + 2] := src[i + 3];
      dst[i + 3] := src[i];
      assert dst[..i] == done;
      assert dst[i..i + 4] == [src[i + 1], src[i + 2], src[i + 3], src[i]];
      PrgbToRgbaStep(src, i, dst[..i + 4]);
      i := i + 4;
    }
    assert src[..i] == src;
    assert dst[..i] == dst[..];
  }

  /**
   * Writes the A, R, G, B form of the R, G, B, A pixels `src` into `dst`,
   * under the same length demands as `ConvertPrgbToRgba`.
   */
  method ConvertRgbaToPrgb(src: seq<byte>, dst: array<byte>)
    requires |src| == dst.Length
    requires |src| % 4 == 0
    modifies dst
    ensures dst[..] == RgbaToPrgb(src)
  {
    var i := 0;
    while i < |src|
      invariant 0 <= i <= |src| && i % 4 == 0
      invariant dst[..i] == RgbaToPrgb(src[..i])
      decreases |src| - i
    {
      ghost var done := dst[..i];
      dst[i] := src[i + 3];
      dst[i + 1] := src[i];
      dst[i + 2] := src[i + 1];
      dst[i + 3] := src[i + 2];
      assert dst[..i] == done;
      assert dst[i..i + 4] == [src[i + 3], src[i], src[i + 1], src[i + 2]];
      RgbaToPrgbStep(src, i, dst[..i + 4]);
      i := i + 4;
    }
    assert src[..i] == src;
    assert dst[..i] == dst[..];
  }

  /**
   * Dispatch on the ordered pair of layouts. Only differing layouts may be
   * passed: equal layouts are the `unreachable!` arm of the library's `convert`.
   */
  method Convert(src: seq<byte>, dst: array<byte>, from: PixelFormat, to: PixelFormat)
    requires NeedsConversion(from, to)
    requires |src| == dst.Length
    requires |src| % 4 == 0
    modifies dst
    ensures dst[..] == Converted(from, to, src)
  {
    match (from, to)
    case (Prgb8, Rgba8) => ConvertPrgbToRgba(src, dst);
    case (Rgba8, Prgb8) => ConvertRgbaToPrgb(src, dst);
  }
}
