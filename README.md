# video-buffer: a Dafny model of the frame-buffer core

This project models the sequential core of the `video-buffer` Rust library,
a small subsystem that moves rendered pixel frames from a producer to a
display backend:

- `Format` (format.rs): the two packed four-byte layouts `Rgba8` (R, G, B, A)
  and `Prgb8` (A, R, G, B), with bytes per pixel, stride and frame size.
- `Convert` (convert.rs): the byte-order permutation between the two
  layouts, as pure per-pixel functions and as the in-place loops that write
  a destination buffer, with the dispatch on the ordered pair of layouts.
- `Buffer` (buffer.rs): `DoubleBuffer`, two equal-size slots where the
  producer writes the back slot, the consumer reads the front slot and
  `Swap` exchanges them.
- `FrameQueues` (frame_queue.rs): `FrameQueue`, a bounded reorder buffer
  keyed by sequence number that releases frames strictly in order from 0.
- `Bridge` (bridge.rs): `DisplayPresenter` over an abstract `Backend`:
  construction (backend initialisation, conversion scratch buffer), the
  max-fps gate, and `PresentFrame`.
- `Common`: the machine integer types (`byte`, `u32`, `u64`, `usize`, the
  last taken as 64 bits), the option and result types `Option`, `Result`,
  `Outcome`, and `Zeros`, a zero-filled byte sequence.

Modelling choices:

- A Rust `assert!` that panics on a bad argument is a `requires`: the
  length checks of the converters, the zero-dimension checks of
  `DoubleBuffer::new`, and the zero-capacity check of `FrameQueue::new`.
  The `unreachable!` arm of `convert` becomes the requirement that the two
  layouts differ.
- Integer overflow that would panic in a debug build is also a `requires`:
  `buffer_size` needs `4 * width * height` to fit in `usize` (`SizeFits`),
  and `pop_ready` may not advance `next_frame` past the largest `u64`.
  `stride` cannot overflow on a 64-bit target: its result type is `usize`
  for every `u32` width.
- The converters read `src` as an immutable slice (`seq<byte>`) and write
  `dst` in place (`array<byte>`). Their results are specified by the
  chunk-by-chunk functions `PrgbToRgba` and `RgbaToPrgb`, which do not
  mention the old contents of `dst`.
- `DoubleBuffer` keeps `width`, `height` and `format` as constant fields, so
  no write or swap can change them. `Front` returns a snapshot of the front
  slot. `BackMut` returns the back array itself, and callers write through
  it. `BackMut`'s result is never the current front slot, so writes made
  through it before the next `Swap` do not reach `front`.
- `FrameQueue` keeps a ghost history `released` of the sequence numbers
  popped so far. Its invariant says the history is exactly `0, 1, …,
  next_frame - 1`, so releases are in order and have no gaps.
- The display backend is a class with its native `format`, a `fault` field
  for the condition of the device (when set, every call fails with that
  error), and ghost logs of `init` calls and presented frames. The error
  type is a single datatype `Error`.
- `DisplayPresenter::new` returns `Result` and therefore becomes the static
  method `New`. The by-value builder `with_max_fps` becomes an in-place
  update of the same object. Timestamps and the fps limit are `real`.
- `SwapScenario`, `WriteSwapRounds` and `CreationScenario` follow the unit
  tests of src/buffer.rs, and `SizeExamples` and `ConversionExamples` those
  of src/format.rs and src/convert.rs. The queue scenarios
  (`CapacityScenario`, `ReorderScenario`) and the presenter scenarios
  (`RateLimitScenario`, `ConversionScenario`, `InitFailureScenario`) are
  this model's own: src/frame_queue.rs has no tests, and the tests of
  src/bridge.rs exercise only `DisplayBridge`. Each scenario allocates its
  own objects and proves the observed results in its `ensures`.

One behaviour of the rate limit is easy to misread. One might expect a
presenter limited to 30 fps to present its first frame at t = 0 ms. The code
starts `last_present_time_ms` at 0 (src/bridge.rs:40), so a frame at
0 ms is less than 1000/30 ms after "the last presentation" and is skipped.
The model follows the code, and `RateLimitScenario` proves the skip.

## Model

| member | source | states |
|---|---|---|
| Format.BytesPerPixel | src/format.rs:12-16 | both layouts use four bytes per pixel |
| Format.Stride | src/format.rs:20-22 | a row is `4 * width` bytes; the value fits in `usize` for every `u32` width |
| Format.BufferSize | src/format.rs:26-28 | a frame is `stride(width) * height == 4 * width * height` bytes, a whole number of pixels, when that product fits in `usize` |
| Format.SizesIndependentOfFormat | src/format.rs:12-28 | bytes per pixel, stride and frame size are the same for both layouts |
| Format.SizeExamples | src/format.rs:35-51 | 4 bytes per pixel; stride 320→1280 and 100→400; 320×200→256000 and 640×480→1228800 bytes |
| Convert.NeedsConversion | src/convert.rs:4-6 | a conversion is needed exactly when the two layouts differ |
| Convert.NeedsConversionExactlyForSupportedPairs | src/convert.rs:4-14 | a conversion is needed exactly for (Prgb8, Rgba8) and (Rgba8, Prgb8), never for a layout with itself, so the dispatch never reaches its unreachable arm |
| Convert.PrgbToRgba | src/convert.rs:26-31 | the A,R,G,B→R,G,B,A rewrite of whole pixels keeps the length |
| Convert.RgbaToPrgb | src/convert.rs:43-48 | the R,G,B,A→A,R,G,B rewrite of whole pixels keeps the length |
| Convert.PrgbToRgbaAt | src/convert.rs:26-31 | pixel p maps as `dst[4p]=src[4p+1]`, `dst[4p+1]=src[4p+2]`, `dst[4p+2]=src[4p+3]`, `dst[4p+3]=src[4p]` |
| Convert.RgbaToPrgbAt | src/convert.rs:43-48 | pixel p maps as `dst[4p]=src[4p+3]`, `dst[4p+1]=src[4p]`, `dst[4p+2]=src[4p+1]`, `dst[4p+3]=src[4p+2]` |
| Convert.PrgbToRgbaAppend | src/convert.rs:26 | each pixel is converted on its own: converting a concatenation of whole pixels converts each part |
| Convert.RgbaToPrgbAppend | src/convert.rs:43 | the same chunk-wise property for the other direction |
| Convert.PrgbRoundTrip | src/convert.rs:80-89 | A,R,G,B→R,G,B,A→A,R,G,B is the identity on every whole-pixel buffer |
| Convert.RgbaRoundTrip | src/convert.rs:91-101 | R,G,B,A→A,R,G,B→R,G,B,A is the identity on every whole-pixel buffer |
| Convert.Converted | src/convert.rs:9-15 | the conversion chosen for an ordered pair of differing layouts keeps the length |
| Convert.ConvertedRoundTrip | src/convert.rs:130-188 | for either pair of differing layouts, converting there and back restores the original bytes |
| Convert.ConversionExamples | src/convert.rs:63-127 | the single-pixel, three-pixel and empty-buffer cases of the unit tests |
| Convert.ConvertPrgbToRgba | src/convert.rs:18-32 | requires equal lengths that are a multiple of 4; afterwards `dst` holds exactly `PrgbToRgba(src)`, whatever it held before |
| Convert.ConvertRgbaToPrgb | src/convert.rs:35-49 | requires equal lengths that are a multiple of 4; afterwards `dst` holds exactly `RgbaToPrgb(src)`, whatever it held before |
| Convert.Convert | src/convert.rs:9-15 | requires differing layouts; writes `dst` with the conversion for that ordered pair |
| Buffer.DoubleBuffer.constructor | src/buffer.rs:12-27 | requires nonzero width and height; both slots are fresh, distinct, `buffer_size(width, height)` bytes long and all zero; the geometry is recorded |
| Buffer.DoubleBuffer.Width | src/buffer.rs:29-31 | returns the construction width |
| Buffer.DoubleBuffer.Height | src/buffer.rs:33-35 | returns the construction height |
| Buffer.DoubleBuffer.Format | src/buffer.rs:37-39 | returns the construction layout |
| Buffer.DoubleBuffer.BackMut | src/buffer.rs:41-43 | returns the back slot, which is never the front slot |
| Buffer.DoubleBuffer.Front | src/buffer.rs:45-47 | returns the contents of the front slot |
| Buffer.DoubleBuffer.Swap | src/buffer.rs:49-51 | front and back exchange slots; contents and lengths travel with them; geometry unchanged |
| Buffer.SwapScenario | src/buffer.rs:68-90 | bytes written to back are not in front before the swap, are in front after it, back then holds the old zeros, and a second swap restores the first arrangement |
| Buffer.WriteSwapRounds | src/buffer.rs:92-110 | over any number of "write back, swap" rounds, front always shows the byte written in the latest round |
| Buffer.CreationScenario | src/buffer.rs:58-66 | a 320×200 Rgba8 buffer reports its geometry and has two slots of 256000 bytes |
| FrameQueues.Accepts | src/frame_queue.rs:26-32 | a push is accepted exactly when it is not below the expected number and either fewer than `max_len` keys are pending or its key is one of them |
| FrameQueues.StaleRejected | src/frame_queue.rs:26-28 | a push below the expected sequence number is never accepted |
| FrameQueues.RepushAccepted | src/frame_queue.rs:30-35 | re-pushing a pending, non-stale key is accepted even when the queue is full |
| FrameQueues.AcceptedPushKeepsBound | src/frame_queue.rs:30-35 | an accepted insert or overwrite keeps the distinct pending keys within `max_len` |
| FrameQueues.FrameQueue.constructor | src/frame_queue.rs:11-19 | requires `max_len > 0`; starts expecting 0 with nothing pending and nothing released |
| FrameQueues.FrameQueue.NextFrameNumber | src/frame_queue.rs:21-23 | returns the expected sequence number |
| FrameQueues.FrameQueue.Push | src/frame_queue.rs:25-36 | accepts exactly when not stale and (room for another key or key already pending); accepted: `frames[no := frame]`; rejected: nothing changes; the expected number never changes; invariants kept |
| FrameQueues.FrameQueue.PopReady | src/frame_queue.rs:38-45 | when the expected frame is pending it is removed and returned, the expected number goes up by one, and the release history grows by that number; otherwise `None` and nothing changes; the history always is `0 .. next_frame-1` |
| FrameQueues.CapacityScenario | src/frame_queue.rs:25-45 | capacity 2: 0 and 2 accepted, 3 refused while full, popping releases frame 0 and moves the expected number to 1, 3 is then accepted and a re-push of 0 is stale |
| FrameQueues.ReorderScenario | src/frame_queue.rs:38-45 | frames pushed as 2, 0, 1 are released as 0, 1, 2, and nothing is released while 0 is missing |
| Bridge.Backend.Init | src/traits.rs:12 | an abstract backend `init` that records the call and fails exactly when the device is at fault |
| Bridge.Backend.Present | src/traits.rs:14 | an abstract backend `present` that displays (logs) the frame unless the device is at fault, in which case it returns the error |
| Bridge.TooSoon | src/bridge.rs:86-91 | a frame is too soon exactly when a limit is set and less than `1000 / max_fps` ms have passed since the last accepted presentation |
| Bridge.TooSoonMeansRateExceeded | src/bridge.rs:86-91 | without a limit nothing is skipped; with limit `fps` a frame is skipped exactly when `(now - last) * fps < 1000` |
| Bridge.Shown | src/bridge.rs:94-99 | the bytes chosen for the backend, converted or raw, are as long as the frame handed in |
| Bridge.ShownIsLossless | src/bridge.rs:94-99 | those bytes carry the frame without loss: converted bytes convert back to the frame, raw bytes are the frame |
| Bridge.DisplayPresenter.Make | src/bridge.rs:35-41 | a presenter starts with no fps limit and a last presentation time of 0 |
| Bridge.DisplayPresenter.New | src/bridge.rs:20-42 | calls the backend's `init` first and returns its error unchanged; on success the scratch buffer exists exactly when the layouts differ, and is then a fresh zeroed frame of the backend's layout |
| Bridge.DisplayPresenter.WithMaxFps | src/bridge.rs:45-48 | sets the fps limit and changes nothing else |
| Bridge.DisplayPresenter.PresentFrame | src/bridge.rs:84-104 | a too-soon frame, of any length, gets `Ok(false)` with no backend call and timestamp and scratch unchanged; otherwise (the frame must then match the scratch buffer's length when there is one) the scratch buffer (when there is one) holds the converted frame and the backend receives exactly those bytes, or the raw frame when there is no scratch buffer; on success the timestamp becomes `now` and the result is `Ok(true)`; on failure the error comes back and the timestamp is kept |
| Bridge.RateLimitScenario | src/bridge.rs:84-104 | at 30 fps from a fresh presenter: 0 ms and 10 ms skipped, 40 ms presented, 50 ms skipped, 80 ms presented |
| Bridge.SkipMisSizedScenario | src/bridge.rs:86-95 | a too-soon frame of the wrong length is skipped with `Ok(false)` before the conversion could panic |
| Bridge.ConversionScenario | src/bridge.rs:94-103 | an A,R,G,B frame shown on an R,G,B,A backend arrives reordered through the scratch buffer; a backend failure comes back as the same error |
| Bridge.InitFailureScenario | src/bridge.rs:26 | a backend whose `init` fails makes construction return that error |

## Left out

- `TripleBuffer`, `DisplayBridge` (including `render_frame`) and `DisplayPresenter::present`: src/lib.rs re-exports a `TripleBuffer`, but src/buffer.rs (the only buffer module here) defines no such type, so its role rotation has no source to model against.
- Concurrency: `FrameQueue` and the buffers are modelled as used from one thread at a time; the thread-safety of concurrent pushes is not modelled.
- Buffer.DoubleBuffer.BackMut: Rust's borrow discipline is not modelled. In Rust the `&mut` slice from `back_mut` must be dropped before `swap` can be called; in the model the returned array outlives a `Swap` and then is the front slot, so callers must call `BackMut` again after each swap.
- The "no byte copy" nature of `DoubleBuffer::swap` (`std::mem::swap` of two vectors) is a performance property; the model swaps the two array references, so it shows only that contents are exchanged.
- The concrete backends (src/backends/pixels.rs, src/backends/wasm_canvas.rs) are wrappers over windowing and canvas APIs; they appear only as the abstract `Backend` with a native layout and `init`/`present` that may fail. Whether a device call fails is the `fault` field, set by the device's environment, not modelled further. The backend's own demand that a presented frame be one frame long is not modelled.
- src/traits.rs and src/error.rs only declare interfaces and errors, and they disagree with their callers (the `render` arity, `DoubleBufferError` against `VideoBufferError`); one `Error` datatype stands for the error type.
- The renderer interface and the repository's example programs (windowing, event loops, web workers, sprites, fps measurement).
- Bridge.DisplayPresenter.WithMaxFps: requires `fps > 0`; IEEE 754 behaviour of a zero, negative, infinite or NaN limit, and of infinite or NaN timestamps, is not modelled, since the gate uses exact real arithmetic.
- Bridge.DisplayPresenter.New: requires the backend frame size to fit in `usize` whenever a scratch buffer is needed, although the source would call `init` before overflowing.
- FrameQueues.FrameQueue.PopReady: requires that releasing frame `u64::MAX`, which would overflow `next_frame`, does not happen; a release build would wrap to 0 there instead.
- 32-bit targets such as wasm32 are not modelled: `usize` is taken as 64 bits, so `SizeFits` and the range of `Stride` use the 64-bit bound; with a 32-bit `usize`, `stride` overflows from width 2^30.
- Memory exhaustion on allocation is not modelled.
