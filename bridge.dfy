/**
 * The presenter half of the producer/consumer split: it owns a display
 * backend and, when the producer's layout differs from the backend's, a
 * reusable conversion scratch buffer, and it rate-limits presentation.
 */
module Bridge {
  import opened Common
  import opened Format
  import opened Convert

  /** The library's error type, as far as the presenter passes it on. */
  datatype Error =
    | InitFailed(reason: string)
    | NotInitialized
    | PresentFailed(reason: string)

  /**
   * An abstract display backend with a fixed native layout. Whether its
   * calls fail is the device's business: `fault` stands for that condition,
   * and the ghost logs record what it was asked to do.
   */
  class Backend {
    const format: PixelFormat
    var fault: Option<Error>
    ghost var inits: seq<(u32, u32)>
    ghost var presented: seq<seq<byte>>

    constructor (format: PixelFormat, fault: Option<Error>)
      ensures this.format == format && this.fault == fault
      ensures inits == [] && presented == []
    {
      this.format := format;
      this.fault := fault;
      inits := [];
      presented := [];
    }

    method Init(width: u32, height: u32) returns (r: Outcome<Error>)
      modifies this
      ensures fault == old(fault) && presented == old(presented)
      ensures inits == old(inits) + [(width, height)]
      ensures r == if fault.None? then Pass else Fail(fault.value)
    {
      inits := inits + [(width, height)];
      r := if fault.None? then Pass else Fail(fault.value);
    }

    /** Displays `frame` unless the device is at fault. */
    method Present(frame: seq<byte>) returns (r: Outcome<Error>)
      modifies this
      ensures fault == old(fault) && inits == old(inits)
      ensures r == if fault.None? then Pass else Fail(fault.value)
      ensures presented == if fault.None? then old(presented) + [frame] else old(presented)
    {
      if fault.None? {
        presented := presented + [frame];
        r := Pass;
      } else {
        r := Fail(fault.value);
      }
    }
  }

  /**
   * The max-fps gate: a limit is configured and less than `1000 / fps`
   * milliseconds have passed since the last accepted presentation.
   */
  predicate TooSoon(maxFps: Option<real>, lastMs: real, nowMs: real)
    requires maxFps.Some? ==> maxFps.value > 0.0
  {
    maxFps.Some? && nowMs - lastMs < 1000.0 / maxFps.value
  }

  /**
   * The gate stated without division: with a limit of `fps` frames per
   * second, a frame is too soon exactly when `fps` frames would not fit in
   * the elapsed time; without a limit nothing is too soon.
   */
  lemma TooSoonMeansRateExceeded(maxFps: Option<real>, lastMs: real, nowMs: real)
    requires maxFps.Some? ==> maxFps.value > 0.0
    ensures maxFps.None? ==> !TooSoon(maxFps, lastMs, nowMs)
    ensures maxFps.Some? ==>
      (TooSoon(maxFps, lastMs, nowMs) <==> (nowMs - lastMs) * maxFps.value < 1000.0)
  {
    if maxFps.Some? {
      var fps := maxFps.value;
      var elapsed := nowMs - lastMs;
      assert elapsed < 1000.0 / fps <==> elapsed * fps < (1000.0 / fps) * fps;
      assert (1000.0 / fps) * fps == 1000.0;
    }
  }

  /** The bytes handed to the backend: converted when a scratch buffer exists, raw otherwise. */
  function Shown(converting: bool, from: PixelFormat, to: PixelFormat, frame: seq<byte>): (r: seq<byte>)
    requires converting ==> NeedsConversion(from, to) && |frame| % 4 == 0
    ensures |r| == |frame|
  {
    if converting then Converted(from, to, frame) else frame
  }

  /**
   * The backend's bytes carry the producer's frame without loss: converted
   * bytes convert back to the frame, and unconverted bytes are the frame.
   */
  lemma ShownIsLossless(converting: bool, from: PixelFormat, to: PixelFormat, frame: seq<byte>)
    requires converting ==> NeedsConversion(from, to) && |frame| % 4 == 0
    ensures converting ==> Converted(to, from, Shown(converting, from, to, frame)) == frame
    ensures !converting ==> Shown(converting, from, to, frame) == frame
  {
    if converting {
      ConvertedRoundTrip(from, to, frame);
    }
  }

  class DisplayPresenter {
    const backend: Backend
    const sourceFormat: PixelFormat
    /** The scratch buffer; whether there is one is fixed at construction. */
    const convertBuffer: Option<array<byte>>
    var maxFps: Option<real>
    var lastPresentTimeMs: real
    /** The geometry the scratch buffer was sized for. */
    ghost const width: u32
    ghost const height: u32

    ghost predicate Valid()
      reads this
    {
      && (convertBuffer.Some? <==> NeedsConversion(sourceFormat, backend.format))
      && (convertBuffer.Some? ==>
            SizeFits(width, height) &&
            convertBuffer.value.Length == BufferSize(backend.format, width, height))
      && (maxFps.Some? ==> maxFps.value > 0.0)
    }

    /** The objects `PresentFrame` may write besides the presenter and its backend. */
    ghost function Scratch(): set<object>
      reads this
    {
      if convertBuffer.Some? then {convertBuffer.value} else {}
    }

    constructor Make(backend: Backend, sourceFormat: PixelFormat, convertBuffer: Option<array<byte>>, ghost width: u32, ghost height: u32)
      requires convertBuffer.Some? <==> NeedsConversion(sourceFormat, backend.format)
      requires convertBuffer.Some? ==>
        SizeFits(width, height) && convertBuffer.value.Length == BufferSize(backend.format, width, height)
      ensures Valid()
      ensures this.backend == backend && this.sourceFormat == sourceFormat && this.convertBuffer == convertBuffer
      ensures this.width == width && this.height == height
      ensures maxFps == None && lastPresentTimeMs == 0.0
    {
      this.backend := backend;
      this.sourceFormat := sourceFormat;
      this.convertBuffer := convertBuffer;
      this.width := width;
      this.height := height;
      maxFps := None;
      lastPresentTimeMs := 0.0;
    }

    /**
     * Initialises the backend first and passes its error on unchanged; on
     * success allocates a zeroed scratch buffer of one backend-format frame
     * exactly when the layouts differ. A new presenter has no rate limit and
     * a last presentation time of 0.
     */
    static method New(backend: Backend, width: u32, height: u32, sourceFormat: PixelFormat)
      returns (r: Result<DisplayPresenter, Error>)
      requires NeedsConversion(sourceFormat, backend.format) ==> SizeFits(width, height)
      modifies backend
      ensures backend.fault == old(backend.fault) && backend.presented == old(backend.presented)
      ensures backend.inits == old(backend.inits) + [(width, height)]
      ensures old(backend.fault).Some? ==> r == Failure(old(backend.fault).value)
      ensures old(backend.fault).None? ==> r.Success?
      ensures r.Success? ==>
        var p := r.value;
        && fresh(p) && p.Valid()
        && p.backend == backend && p.sourceFormat == sourceFormat
        && p.width == width && p.height == height
        && p.maxFps == None && p.lastPresentTimeMs == 0.0
        && (p.convertBuffer.Some? ==>
              fresh(p.convertBuffer.value) &&
              p.convertBuffer.value[..] == Zeros(BufferSize(backend.format, width, height)))
    {
      var init := backend.Init(width, height);
      if init.Fail? {
        return Failure(init.error);
      }
      var scratch: Option<array<byte>> := None;
      if NeedsConversion(sourceFormat, backend.format) {
        var size := BufferSize(backend.format, width, height);
        var buf := new byte[size](_ => 0);
        scratch := Some(buf);
      }
      var p := new DisplayPresenter.Make(backend, sourceFormat, scratch, width, height);
      r := Success(p);
    }

    /** Sets the rate limit; nothing else changes. */
    method WithMaxFps(fps: real)
      requires Valid()
      requires fps > 0.0
      modifies this
      ensures Valid()
      ensures maxFps == Some(fps) && lastPresentTimeMs == old(lastPresentTimeMs)
    {
      maxFps := Some(fps);
    }

    /**
     * Presents a raw frame. Too soon after the last presentation it returns
     * `false` and touches nothing. Otherwise it hands the backend the frame,
     * converted through the scratch buffer when there is one; on success it
     * records `nowMs` and returns `true`, on failure it returns the backend's
     * error and keeps the old timestamp. When the frame is not too soon and
     * there is a scratch buffer, the frame must be exactly one frame long, as
     * the conversion demands; a skipped frame is never looked at.
     */
    method PresentFrame(frame: seq<byte>, nowMs: real) returns (r: Result<bool, Error>)
      requires Valid()
      requires convertBuffer.Some? && !TooSoon(maxFps, lastPresentTimeMs, nowMs) ==>
        |frame| == convertBuffer.value.Length
      modifies this, backend, Scratch()
      ensures Valid()
      ensures maxFps == old(maxFps)
      ensures backend.fault == old(backend.fault) && backend.inits == old(backend.inits)
      ensures TooSoon(old(maxFps), old(lastPresentTimeMs), nowMs) ==>
        && r == Success(false)
        && lastPresentTimeMs == old(lastPresentTimeMs)
        && backend.presented == old(backend.presented)
        && (convertBuffer.Some? ==> convertBuffer.value[..] == old(convertBuffer.value[..]))
      ensures !TooSoon(old(maxFps), old(lastPresentTimeMs), nowMs) ==>
        var shown := Shown(convertBuffer.Some?, sourceFormat, backend.format, frame);
        && (convertBuffer.Some? ==> convertBuffer.value[..] == shown)
        && (old(backend.fault).None? ==>
              r == Success(true) && lastPresentTimeMs == nowMs &&
              backend.presented == old(backend.presented) + [shown])
        && (old(backend.fault).Some? ==>
              r == Failure(old(backend.fault).value) &&
              lastPresentTimeMs == old(lastPresentTimeMs) &&
              backend.presented == old(backend.presented))
    {
      if maxFps.Some? {
        var minInterval := 1000.0 / maxFps.value;
        if nowMs - lastPresentTimeMs < minInterval {
          return Success(false);
        }
      }
      var bytes := frame;
      if convertBuffer.Some? {
        var buf := convertBuffer.value;
        Convert.Convert(frame, buf, sourceFormat, backend.format);
        bytes := buf[..];
      }
      var outcome := backend.Present(bytes);
      if outcome.Fail? {
        return Failure(outcome.error);
      }
      lastPresentTimeMs := nowMs;
      r := Success(true);
    }
  }

  /**
   * The rate-limit scenario at 30 fps (a minimum interval of 33 1/3 ms).
   * The last presentation time starts at 0, so a frame at 0 ms is already
   * too soon; 40 ms is presented, 50 ms is skipped and 80 ms is presented.
   */
  method RateLimitScenario(frame: seq<byte>) returns (at0: Result<bool, Error>, at10: Result<bool, Error>, at40: Result<bool, Error>, at50: Result<bool, Error>, at80: Result<bool, Error>)
    ensures at0 == Success(false) && at10 == Success(false)
    ensures at40 == Success(true) && at50 == Success(false) && at80 == Success(true)
  {
    var backend := new Backend(Rgba8, None);
    var made := DisplayPresenter.New(backend, 1, 1, Rgba8);
    var p := made.value;
    p.WithMaxFps(30.0);
    at0 := p.PresentFrame(frame, 0.0);
    at10 := p.PresentFrame(frame, 10.0);
    at40 := p.PresentFrame(frame, 40.0);
    at50 := p.PresentFrame(frame, 50.0);
    at80 := p.PresentFrame(frame, 80.0);
    assert backend.presented == [frame, frame];
  }

  /**
   * A presenter fed A, R, G, B frames by the producer in front of an
   * R, G, B, A backend: the scratch buffer and the backend receive the
   * reordered pixel, and a
   * failing backend's error comes back unchanged.
   */
  method ConversionScenario() returns (ok: Result<bool, Error>, scratch: seq<byte>, failed: Result<bool, Error>)
    ensures ok == Success(true)
    ensures scratch == [128, 64, 32, 255]
    ensures failed == Failure(PresentFailed("lost surface"))
  {
    var backend := new Backend(Rgba8, None);
    var made := DisplayPresenter.New(backend, 1, 1, Prgb8);
    var p := made.value;
    ok := p.PresentFrame([255, 128, 64, 32], 5.0);
    ConversionExamples();
    assert backend.presented == [[128, 64, 32, 255]];
    scratch := p.convertBuffer.value[..];
    backend.fault := Some(PresentFailed("lost surface"));
    failed := p.PresentFrame([255, 128, 64, 32], 6.0);
  }

  /**
   * A frame that arrives too soon is skipped before any conversion, so its
   * length does not matter, even when a scratch buffer exists.
   */
  method SkipMisSizedScenario() returns (r: Result<bool, Error>)
    ensures r == Success(false)
  {
    var backend := new Backend(Rgba8, None);
    var made := DisplayPresenter.New(backend, 1, 1, Prgb8);
    var p := made.value;
    p.WithMaxFps(30.0);
    r := p.PresentFrame([1, 2, 3], 0.0);
  }

  /** A backend that cannot be initialised makes construction fail with its error. */
  method InitFailureScenario() returns (r: Result<DisplayPresenter, Error>)
    ensures r == Failure(InitFailed("no window"))
  {
    var backend := new Backend(Rgba8, Some(InitFailed("no window")));
    r := DisplayPresenter.New(backend, 640, 480, Rgba8);
  }
}
