/**
 * The two packed 8-bit-per-channel pixel layouts and their size arithmetic.
 */
module Format {
  import opened Common

  datatype PixelFormat =
    | Rgba8  // channels in R, G, B, A order
    | Prgb8  // channels in A, R, G, B order (labelled premultiplied)

  /** Both layouts pack one pixel into four bytes. */
  function BytesPerPixel(f: PixelFormat): (r: usize)
    ensures r == 4
  {
    match f
    case Rgba8 => 4
    case Prgb8 => 4
  }

  /**
   * Bytes per row. The width is widened to `usize` before the multiply, so
   * the result is in range for every `u32` width (the result type says so).
   */
  function Stride(f: PixelFormat, width: u32): (r: usize)
    ensures r == 4 * width
  {
    width * BytesPerPixel(f)
  }

  /** The `usize` product `stride(width) * height` does not overflow. */
  predicate SizeFits(width: u32, height: u32) {
    4 * width * height < USIZE_LIMIT
  }

  /** Bytes of a whole frame: rows of `Stride` bytes, no padding. */
  function BufferSize(f: PixelFormat, width: u32, height: u32): (r: usize)
    requires SizeFits(width, height)
    ensures r == Stride(f, width) * height
    ensures r == 4 * width * height
    ensures r % 4 == 0
  {
    var row := Stride(f, width);
    assert row * height == 4 * (width * height) && 4 * (width * height) % 4 == 0;
    row * height
  }

  /** Which layout is used has no influence on the sizes. */
  lemma SizesIndependentOfFormat(f: PixelFormat, g: PixelFormat, width: u32, height: u32)
    ensures BytesPerPixel(f) == BytesPerPixel(g)
    ensures Stride(f, width) == Stride(g, width)
    ensures SizeFits(width, height) ==> BufferSize(f, width, height) == BufferSize(g, width, height)
  {
  }

  /** The figures checked by the unit tests of format.rs. */
  lemma SizeExamples()
    ensures BytesPerPixel(Rgba8) == 4 && BytesPerPixel(Prgb8) == 4
    ensures Stride(Rgba8, 320) == 1280 && Stride(Prgb8, 100) == 400
    ensures BufferSize(Rgba8, 320, 200) == 256_000
    ensures BufferSize(Prgb8, 640, 480) == 1_228_800
  {
  }
}
