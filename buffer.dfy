/**
 * A double buffer: two equal-size byte slots. The producer writes the back
 * slot, the consumer reads the front slot, and `Swap` exchanges which slot
 * each name denotes without copying bytes.
 */
module Buffer {
  import opened Common
  import opened Format

  class DoubleBuffer {
    const width: u32
    const height: u32
    const format: PixelFormat
    var front: array<byte>
    var back: array<byte>

    /** Two distinct slots, each one frame of the construction geometry. */
    ghost predicate Valid()
      reads this
    {
      && width > 0 && height > 0
      && SizeFits(width, height)
      && front != back
      && front.Length == BufferSize(format, width, height)
      && back.Length == BufferSize(format, width, height)
    }

    /** Panics (here: may not be called) when either dimension is zero. */
    constructor (width: u32, height: u32, format: PixelFormat)
      requires width > 0
      requires height > 0
      requires SizeFits(width, height)
      ensures Valid()
      ensures this.width == width && this.height == height && this.format == format
      ensures fresh(front) && fresh(back)
      ensures front[..] == Zeros(BufferSize(format, width, height))
      ensures back[..] == Zeros(BufferSize(format, width, height))
    {
      var size := BufferSize(format, width, height);
      this.width := width;
      this.height := height;
      this.format := format;
      front := new byte[size](_ => 0);
      back := new byte[size](_ => 0);
    }

    method Width() returns (w: u32)
      ensures w == width
    {
      w := width;
    }

    method Height() returns (h: u32)
      ensures h == height
    {
      h := height;
    }

    method Format() returns (f: PixelFormat)
      ensures f == format
    {
      f := format;
    }

    /**
     * The producer's slot, writable in place by the caller. The result is
     * never the current front; after a `Swap` it is the front, so a caller
     * takes it afresh after every swap (in Rust the borrow has ended by then).
     */
    method BackMut() returns (b: array<byte>)
      requires Valid()
      ensures b == back && b != front
    {
      b := back;
    }

    /** The consumer's view: the bytes of the front slot. */
    method Front() returns (s: seq<byte>)
      ensures s == front[..]
    {
      s := front[..];
    }

    /** Exchanges the two slots; no byte of either slot changes. */
    method Swap()
      requires Valid()
      modifies this
      ensures Valid()
      ensures front == old(back) && back == old(front)
      ensures front[..] == old(back[..]) && back[..] == old(front[..])
    {
      front, back := back, front;
    }
  }

  /**
   * The swap test: two bytes written through `BackMut` are invisible in
   * front until `Swap`; afterwards front shows them and back holds the old
   * zeros. A second swap restores the first arrangement.
   */
  method SwapScenario() returns (frontBefore: seq<byte>, frontAfter: seq<byte>, backAfter: seq<byte>, frontTwice: seq<byte>)
    ensures frontBefore == [0, 0]
    ensures frontAfter == [42, 99]
    ensures backAfter == [0, 0]
    ensures frontTwice == [0, 0]
  {
    var buffer := new DoubleBuffer(10, 10, Rgba8);
    var back := buffer.BackMut();
    back[0] := 42;
    back[1] := 99;
    var f := buffer.Front();
    frontBefore := f[..2];
    buffer.Swap();
    f := buffer.Front();
    frontAfter := f[..2];
    back := buffer.BackMut();
    backAfter := back[..2];
    buffer.Swap();
    f := buffer.Front();
    frontTwice := f[..2];
  }

  /**
   * Repeated "write back, swap": after each round the front slot shows the
   * byte written in that round. `shown[k]` is front's first byte after round k.
   */
  method WriteSwapRounds(w: u32, h: u32, format: PixelFormat, values: seq<byte>) returns (shown: seq<byte>)
    requires w > 0 && h > 0 && SizeFits(w, h)
    ensures shown == values
  {
    var buffer := new DoubleBuffer(w, h, format);
    shown := [];
    var k := 0;
    while k < |values|
      invariant 0 <= k <= |values|
      invariant buffer.Valid() && buffer.width == w && buffer.height == h && buffer.format == format
      invariant fresh(buffer.front) && fresh(buffer.back)
      invariant shown == values[..k]
      decreases |values| - k
    {
      var back := buffer.BackMut();
      back[0] := values[k];
      buffer.Swap();
      var f := buffer.Front();
      shown := shown + [f[0]];
      k := k + 1;
    }
    assert values[..k] == values;
  }

  /** The geometry reported by a new buffer, as in the creation tests. */
  method CreationScenario() returns (w: u32, h: u32, f: PixelFormat, frontLen: nat, backLen: nat)
    ensures w == 320 && h == 200 && f == Rgba8
    ensures frontLen == 320 * 200 * 4 && backLen == 320 * 200 * 4
  {
    var buffer := new DoubleBuffer(320, 200, Rgba8);
    w := buffer.Width();
    h := buffer.Height();
    f := buffer.Format();
    var front := buffer.Front();
    frontLen := |front|;
    var back := buffer.BackMut();
    backLen := back.Length;
  }
}
