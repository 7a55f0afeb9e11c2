# lamper: verified model of the per-frame light logic and device discovery

lamper turns live audio into lighting commands for a UDP-controlled smart
lamp. This project is a Dafny model of its decision logic:

- **`src/colproc.rs`** has four pieces:
  - the adaptive brightness normaliser `BrightNorm` (module `Normalizer`);
  - the dominant-bin scan of `process` (module `Spectrum`);
  - the frequency-to-colour mapping `rgb` (module `ColorMap`);
  - the per-frame steps of `process` and `process_cycle`, with the palette
    pick `cycle_color` (module `ColProc`).
- **`src/udp.rs`** has the reply-buffer trimming `trimmer`, the address
  lookup in the decoded discovery reply, and the fallible chain of `init`
  with its error conversions (module `Udp`).
- **Module `Prims`** holds Rust's `u8`/`u16`, `Option`, the saturating
  truncating `as u8` cast of a float, and the wrapping `u8` increment.

The code changes state in place, and the model keeps that form. `BrightNorm`
is a class whose `Norm` method updates `max` and `reset`. It is proved against
the specification function `Step`, and the lemmas are about `Step` and its
iteration `Run`. The scan, the channel fill of `rgb` and the backward walk of
`trimmer` are methods with loops. `process_cycle`'s local state is the class
`CycleProcessor`.

Floats are modelled as reals. Rust's float `%` (truncating) and `as u8`
(truncating, saturating) are written out explicitly.

The code departs from the project's stated design in several places, and the model follows the code:
- The normaliser has no rolling buffer, no 0.9 scale factor and no rounding.
  It keeps a single ceiling and counts non-peak samples; once 50 are counted,
  the next sample below 800 drops the ceiling. A sample of exactly 800 is
  neither, so a run of them keeps counting past 50 and the `u8` counter
  wraps at 255. It truncates.
- A silent frame is not reported as 0 Hz with magnitude 0. Every bin ties
  at 0 and the `>=` scan keeps the last in-range bin: bin 1023 of a
  2048-sample window, about 22028 Hz. Its colour is [255, 0, 155], not the
  red of 0 Hz. Only a spectrum with no non-negative in-range bin reports
  0 Hz, and magnitudes are never negative.
- Discovery has no deadline.
- No command, status-query or restore exchange exists: `udp::cmd` is
  unimplemented.

## Model

| member | source | states |
|---|---|---|
| `Prims.AsU8` | src/colproc.rs:192 | the float-to-`u8` cast is 0 for non-positive input, 255 from 255 up, and the integer part in between |
| `Prims.WrappingInc` | src/colproc.rs:51 | the `u8` increment is `x + 1` modulo 256 |
| `Normalizer.Scale` | src/colproc.rs:45-59 | `(vol / ceiling * 100) as u8` is at most 100 when `vol` does not exceed the ceiling, and 0 for a non-positive `vol` |
| `Normalizer.Step` | src/colproc.rs:41-61 | one `norm` call returns at most 100 and keeps the invariant: the ceiling is 0 or above 800, and with no ceiling the counter is 0 |
| `Normalizer.PeakBecomesCeiling` | src/colproc.rs:46-56 | a sample above 800, or above a held ceiling, returns 100, becomes the ceiling and clears the counter |
| `Normalizer.WindowCloses` | src/colproc.rs:42-45 | with a ceiling held, counter at least 50 and a sample below 800, the ceiling and counter are cleared and the sample is scaled against 800 |
| `Normalizer.NonPeakCounted` | src/colproc.rs:50-52 | any other non-peak sample under a held ceiling increments the counter, keeps the ceiling and is scaled against it |
| `Normalizer.NoCeilingScalesByDefault` | src/colproc.rs:57-59 | without a ceiling, a sample up to 800 leaves the state unchanged and is scaled against 800 |
| `Normalizer.FullBrightnessIff` | src/colproc.rs:41-61 | output is 100 if and only if the sample exceeds 800, or equals 800 while no ceiling is held |
| `Normalizer.CounterPastWindowOnlyOnDefault` | src/colproc.rs:42-52 | once the counter is at least 50, it survives a step only on a sample of exactly 800, which increments it and keeps the ceiling |
| `Normalizer.DefaultStreamCounts` | src/colproc.rs:50-52 | `k` samples of exactly 800 under a ceiling add `k` to the counter modulo 256 and keep the ceiling |
| `Normalizer.CounterWrapsOnExactDefault` | src/colproc.rs:46-52 | after a peak, 255 samples of exactly 800 bring the counter to 255 and one more wraps it to 0, with the ceiling still held |
| `Normalizer.RunBounded` | src/colproc.rs:41-61 | over any stream of samples the invariant holds and every output is at most 100 |
| `Normalizer.QuietReleasesCeiling` | src/colproc.rs:40-52 | after at most 51 samples below 800 (fewer if the counter has started), a held ceiling is gone and the state is the initial one |
| `Normalizer.BrightNorm.constructor` | src/colproc.rs:32-39 | a new normaliser has no ceiling and a zero counter |
| `Normalizer.BrightNorm.Norm` | src/colproc.rs:41-61 | the method's new fields and result are exactly those of `Step` on the old fields, and it returns at most 100 |
| `Spectrum.BinHz` | src/colproc.rs:83 | the frequency of a bin in the searched range lies strictly between 0 and half the 44100 Hz sample rate |
| `Spectrum.DominantFrequency` | src/colproc.rs:78-86 | if no bin in `0 < i < len/2` is non-negative, the result is frequency 0 and volume 0; otherwise it is the bin `k` that is in range, at least every in-range magnitude and strictly above every later one (ties go to the last bin), with frequency `k*44100/len` |
| `Spectrum.DominantUnique` | src/colproc.rs:81-86 | at most one bin satisfies that description |
| `Spectrum.SilenceReportsLastBin` | src/colproc.rs:81-86 | an all-zero spectrum reports bin `len/2 - 1`, not bin 0 |
| `ColorMap.Hue` | src/colproc.rs:163 | 20 Hz and below map to a hue of at most 0°, and [20, 20000) Hz maps into [0°, 360°) |
| `ColorMap.Trunc` | src/colproc.rs:169 | rounding toward zero: the result is within one of `x`, on the side of zero |
| `ColorMap.FMod` | src/colproc.rs:169 | Rust's float `% 2.0` lies in [0, 2) for a non-negative dividend and in (-2, 0] for a non-positive one |
| `ColorMap.HslToRgb` | src/colproc.rs:167-185 | in every sector one channel is `l + c/2` and another `l - c/2`, where `c` is the chroma |
| `ColorMap.RgbOf` | src/colproc.rs:162-196 | the colour has three channels; since saturation is 1 and lightness 0.5, one of them is 255 and one is 0 |
| `ColorMap.Rgb` | src/colproc.rs:162-196 | the filled three-byte array is, channel by channel, the HSL channel times 255 cast to `u8` |
| `ColorMap.ChannelsInUnitRange` | src/colproc.rs:167-185 | from 20 Hz up, every HSL channel lies in [0, 1] |
| `ColorMap.RedAtAndBelowMinimum` | src/colproc.rs:162-196 | at or below 20 Hz, including the 0 Hz reported when no in-range bin is non-negative, the colour is [255, 0, 0] |
| `ColorMap.RedDominatesAboveMaximum` | src/colproc.rs:182-183 | from 20000 Hz up the hue falls in the last sector: red 255, green 0 |
| `ColorMap.GreenAndBlueAtThirds` | src/colproc.rs:162-196 | 6680 Hz (hue 120°) gives [0, 255, 0] and 13340 Hz (hue 240°) gives [0, 0, 255] |
| `ColorMap.OrangeAtThirtyDegrees` | src/colproc.rs:162-196 | 1685 Hz (hue 30°) gives [255, 127, 0]: the half-strength channel is truncated, not rounded |
| `ColProc.ProcessFrame` | src/colproc.rs:78-89 | one `process` frame normalises the dominant bin's magnitude and colours its frequency; with no candidate bin it normalises 0 and sends red |
| `ColProc.CycleColor` | src/colproc.rs:138-159 | returns a palette index below 7 with its colour, and never the previous index when one is given |
| `ColProc.SilentFrameColour` | src/colproc.rs:78-89 | an all-zero 2048-bin spectrum reports bin 1023, whose frequency is above 20000 Hz and whose colour is [255, 0, 155] |
| `ColProc.NextCount` | src/colproc.rs:117-134 | from any count below 255 one frame leads into the brightness arm (`0 < count < 255`), and the colour-changing arm is never left once entered |
| `ColProc.CountSettlesAtOne` | src/colproc.rs:110-135 | starting from 0, the counter is 1 after every number of frames other than zero |
| `ColProc.ColorChangeUnreachable` | src/colproc.rs:117-134 | the colour-changing arm (`cycle_count >= 255`) is never taken; every frame after the first takes the brightness arm |
| `ColProc.MeanBetween` | src/colproc.rs:124-126 | the mean level of a non-empty frame lies between any lower and upper bound on its samples |
| `ColProc.CycleProcessor.constructor` | src/colproc.rs:109-112 | the loop starts with a palette colour, counter 0 and a fresh normaliser |
| `ColProc.CycleProcessor.Frame` | src/colproc.rs:117-134 | per arm: counter 0 sends the current colour and moves to 1; 1..254 sends the normalised mean level; 255 picks a different palette colour and sends it |
| `Udp.TrimZeros` | src/udp.rs:93-106 | the kept bytes are a prefix of the buffer, end in a non-zero byte when any are kept, and everything dropped is zero |
| `Udp.TrimCharacterised` | src/udp.rs:94-106 | any non-empty prefix ending in a non-zero byte and followed only by zeros is exactly what is kept |
| `Udp.TrimEmptyIffAllZero` | src/udp.rs:94-99 | nothing is kept if and only if every byte is zero |
| `Udp.PaddingRemoved` | src/udp.rs:93-106 | a payload ending in a non-zero byte, followed by any number of zero bytes, comes back unchanged; interior zeros survive |
| `Udp.TrimIdempotent` | src/udp.rs:93-106 | trimming an already trimmed buffer changes nothing |
| `Udp.LastNonZeroKeepsAll` | src/udp.rs:95-106 | a buffer whose last byte is non-zero is kept whole (the walk-back loop does not run) |
| `Udp.Trimmer` | src/udp.rs:93-106 | for a non-empty buffer holding a non-zero byte, the copied bytes are exactly the trimmed buffer and end in a non-zero byte |
| `Udp.IpField` | src/udp.rs:73-76 | `json["msg"]["data"]["ip"].as_str()` succeeds if and only if the reply nests objects down to a string at `msg.data.ip`, and then yields that string |
| `Udp.DiscoveryReplyIp` | src/udp.rs:73-76 | the documented reply `{"msg":{"data":{"ip":s}}}` yields `s` |
| `Udp.ConversionsDistinguishSources` | src/udp.rs:42-52 | the two `From` conversions map an address-parse failure to `AddrParseErr` and an I/O failure to `MiscInitErr`, so the two sources stay distinguishable |
| `Udp.Received` | src/udp.rs:68-69 | after `recv_from`, the 256-byte reply buffer holds the datagram followed by zero padding, or the first 256 bytes of a longer datagram |
| `Udp.PayloadIsReply` | src/udp.rs:68-71 | a datagram of at most 256 bytes that ends in a non-zero byte reaches the JSON decoder byte for byte |
| `Udp.Init` | src/udp.rs:42-79 | each `init` step maps to its outcome. Failed bind or send panics. Failed TTL or receive gives `MiscInitErr`. An all-zero reply panics in `trimmer`. An undecodable reply panics at `unwrap`. A missing or non-string `ip`, or an unparsable one, gives `AddrParseErr`. Otherwise the result is the parsed address with port 4003, after exactly one scan request to 239.255.255.250:4001 |

## Left out

- The DFT (src/colproc.rs:199-214) is left out. It calls an external FFT crate in floating point. The magnitude spectrum is an input of `ProcessFrame` and `DominantFrequency`.
- Threads, channels, the `Arc<RwLock<bool>>` liveness flag and `println!` in `process` and `process_cycle` are left out. Only the per-frame step is modelled, so queue errors and shutdown are not.
- f32 rounding, infinities and NaN are not modelled: floats are reals.
- Normalizer.Step: a debug build panics on the `u8` overflow of `reset`. The model follows a release build, where the counter wraps.
- ColProc.CycleProcessor.Frame: requires a non-empty frame. The mean of an empty frame is NaN, which reals cannot express. The capture side always sends 2048 samples.
- ColProc.CycleColor: the random draw and its rejection loop are a nondeterministic choice. The distribution and the loop's probabilistic termination are not modelled.
- ColorMap.FMod: bounds the truncated remainder only for divisor 2.0, the one `rgb` uses. The function itself is defined for any positive divisor.
- Udp.Trimmer: returns the trimmed bytes. The `serde_json::from_slice(..).unwrap()` at the end of `trimmer` is modelled in `Init`, as the `decode` parameter and the `ReplyNotJson` panic. The method requires a non-empty buffer with a non-zero byte, because the walk underflows otherwise. `Init` models that case as the `ReplyAllZero` panic.
- Sockets are parameters of `Init`: bind, multicast TTL, `send_to` and `recv_from` success, and the received datagram. JSON decoding and `Ipv4Addr::from_str` are parameters too. Blocking with no deadline is not modelled.
- `udp::cmd` (src/udp.rs:83-90) is left out because every arm is `todo!()`. The `Cmd`, `CmdSuccess`, `Turn` and `CmdErr` types carry no behaviour.
- src/audproc.rs (PulseAudio capture) and src/main.rs (terminal prompts) are left out. main.rs also names `udp::Lamp` and `InitErr::DevStatusErr`, which src/udp.rs does not define.
- src/lib.rs is left out: it holds only constants and an empty `LampErr`. The `From<RecvError> for LampErr` impl (src/colproc.rs:18-22) names a variant that does not exist.
