# Scope probe protocol

Scope is a small oscilloscope. A probe board (Arduino firmware) samples ADC channels,
drives two DACs and a digital potentiometer, and streams the samples over a serial link
to a host application (C#/WPF). This project models, in Dafny, the parts of both sides
that define and drive that link:

- the wire protocol's code tables, host and firmware (`Protocol`), and the
  little-endian codec both sides share (`Bytes`);
- the host's serial link, its read helpers (`ReadExactly`, `ExpectByte`, the status-byte
  read), its write helpers and the opening handshake (`Transport`);
- the host's array helpers: the suffix test and the hex dump (`ArrayExtensions`);
- the circular sample buffer the views display from (`Data`);
- the parameters and the status dispatch that the three streaming engines share
  (`StreamSetup`);
- the three host streaming engines:
  - the current `ProbeConnection`, which works one sample at a time (`Probe`);
  - the older `ProbeConnection`, which works one burst at a time (`LegacyProbe`);
  - the `ReadStreamCommand` object, which deals the bytes round-robin (`ReadStream`);
- the firmware's serial helpers (`Upstream`);
- the two main views' DAC handling: the slider clamp, the level/voltage conversions and
  the waveform tables (`Dac`); and what each view sends or records (`MainView`,
  `LegacyView`), with the channel configurations of the current view.

The host's serial port is a `Port` object. It holds the write log `tx` and the
deliveries `rx` still to come. Each delivery is what one read call can return at most,
and an empty delivery is a read that returns nothing. When the deliveries run out,
the next read waits out the timeout. The engines' consumers of samples are modelled as
the sequence of values each stream has received. `Data.BufferedStream.Push` is proved to
implement `PushAll`, so a buffer fed by a stream is `PushAll` of its initial state and
that sequence. Cancellation, which another thread requests, is an oracle: `cancel[i]`
tells whether loop iteration `i` sees a request.

Where the specification and the code disagree, the model follows the code:

- The host's `Command` enum has no `SetPoti0` member, yet the current connection sends
  `Command.SetPoti0`. The model sends the firmware's `SetPoti0Command` (0x39), which
  `Protocol.SetPoti0CodeFree` shows collides with no host code.
- Both connections convert a voltage to a DAC code by scaling with 256, not 255, and the
  model sends what that conversion gives: the level itself below full scale, and at full
  scale (256.0) an unspecified byte, a parameter of `SetDAC` and of the view handlers
  (see Findings).

## Model

| member | source | states |
|---|---|---|
| Bytes.ToByte | src/Scope.UI/Probe/ProbeConnection.cs:110 | the unchecked `(byte)` cast keeps a byte unchanged and agrees with its argument modulo 256 |
| Bytes.Zeros | src/Scope.UI/Probe/ProbeConnection.cs:283 | a freshly allocated buffer: `n` zero bytes |
| Bytes.Word | src/Scope.UI/Probe/ProbeConnection.cs:227-230 | two bytes whose little-endian value is the word |
| Bytes.DWord | src/Scope.UI/Probe/ProbeConnection.cs:232-235 | four bytes whose little-endian value (`DWordValue`) is the dword |
| Bytes.WordValue | Probe/Upstream.cpp:31-35 | the low byte is the value mod 256, the high byte the value div 256 |
| Bytes.DWordValue | Probe/Upstream.cpp:21-29 | the first byte is the value mod 256 (least significant first) |
| Bytes.WordRoundTrip | src/Scope.UI/Probe/ProbeConnection.cs:227-230 | decoding an encoded word gives the word back |
| Bytes.WordValueRoundTrip | Probe/Upstream.cpp:47-51 | encoding a decoded byte pair gives the same bytes back |
| Bytes.DWordRoundTrip | src/Scope.UI/Probe/ProbeConnection.cs:232-235 | decoding an encoded dword gives the dword back |
| Bytes.DWordValueRoundTrip | Probe/Upstream.cpp:21-29 | encoding four decoded bytes gives the same bytes back |
| Protocol.CommandCode | src/Scope.Interface/Probe/Protocol.cs:14-25 | every host command code lies in 0x30..0x38 |
| Protocol.ResponseCode | src/Scope.Interface/Probe/Protocol.cs:27-34 | every response code is 0x40 or lies in 0x45..0x48 |
| Protocol.CommandOf | src/Scope.Interface/Probe/Protocol.cs:14-25 | decodes a byte to the command it names (`Enum.IsDefined`): exactly 0x30..0x38 name one, and the decoded command's code is that byte; `None` for any other byte |
| Protocol.ResponseOf | src/Scope.Interface/Probe/Protocol.cs:27-34 | decodes a byte to the response it names (`Enum.IsDefined`): exactly the five response codes name one, and the decoded response's code is that byte; `None` for any other byte |
| Protocol.CommandCodesDistinct | src/Scope.Interface/Probe/Protocol.cs:14-25 | no two commands share a code; decoding a command's code gives the command |
| Protocol.ResponseCodesDistinct | src/Scope.Interface/Probe/Protocol.cs:27-34 | no two responses share a code, and no response code is a command code |
| Protocol.SetDACArithmetic | src/Scope.UI/Probe/ProbeConnection.cs:188 | `SetDAC0 + index`, `SetDAC0Buffer + index` and `DisableDAC0Buffer + index` name channel `index`'s command for both channels |
| Protocol.FirmwareCommandsConsecutive | src/Probe/Protocol.h:7-16 | the firmware's ten command codes run from 0x30 to 0x39 |
| Protocol.FirmwareMatchesHostCommands | src/Probe/Protocol.h:7-15 | the firmware's first nine command codes equal the host enum's, member by member |
| Protocol.SetPoti0CodeFree | src/Probe/Protocol.h:16 | 0x39 follows the host table and is neither a host command code nor a response code |
| Protocol.FirmwareMatchesHostResponses | src/Probe/Protocol.h:19-23 | the firmware's five response codes equal the host's, and none is a command code |
| Protocol.Ascii | src/Scope.Interface/Probe/Protocol.cs:11 | ASCII encoding keeps the length, and maps every character above 0x7F to '?' |
| Protocol.WelcomeBytesValue | src/Scope.Interface/Probe/Protocol.cs:11 | the welcome bytes are the eleven codes of "HELO PROBE\n" |
| ArrayExtensions.EndsWith | src/TMD/Extensions/ArrayExtensions.cs:11-23 | true exactly when `exp` is no longer than `arr` and is its suffix |
| ArrayExtensions.MatchesFromEnd | src/TMD/Extensions/ArrayExtensions.cs:16-20 | the comparison loop from position `from` on: every remaining position of the suffix matches |
| ArrayExtensions.EndsWithEmpty | src/TMD/Extensions/ArrayExtensions.cs:11-23 | every array ends with the empty array |
| ArrayExtensions.EndsWithAppended | src/TMD/Extensions/ArrayExtensions.cs:11-23 | `p + s` ends with `s`, whatever `p` is |
| ArrayExtensions.EndsWithTooShort | src/TMD/Extensions/ArrayExtensions.cs:13-14 | an array shorter than the suffix never ends with it |
| ArrayExtensions.Hex2 | src/TMD/Extensions/ArrayExtensions.cs:30 | a byte formats to two lower-case hex digits, the digit of `b / 16` then the digit of `b % 16` |
| ArrayExtensions.HexRoundTrip | src/TMD/Extensions/ArrayExtensions.cs:30 | reading back the two digits of a byte gives the byte |
| ArrayExtensions.Dump | src/TMD/Extensions/ArrayExtensions.cs:25-40 | the loop builds exactly `DumpOf(arr)`: each byte, then a line break after every eighth byte or a space otherwise |
| ArrayExtensions.DumpLength | src/TMD/Extensions/ArrayExtensions.cs:25-40 | a dump has three characters per byte, plus the extra line-break characters of one break per eight bytes |
| ArrayExtensions.DumpEmpty | src/TMD/Extensions/ArrayExtensions.cs:25-40 | the empty array dumps to the empty string |
| ArrayExtensions.HexValue | src/TMD/Extensions/ArrayExtensions.cs:30 | a character's hex digit value is below 16 |
| ArrayExtensions.HexDigitValue | src/TMD/Extensions/ArrayExtensions.cs:30 | reading back hex digit `d` gives `d` |
| ArrayExtensions.UndumpAppend | src/TMD/Extensions/ArrayExtensions.cs:28-38 | reading back a dump distributes over appending whole three-character groups |
| ArrayExtensions.UndumpGroup | src/TMD/Extensions/ArrayExtensions.cs:28-38 | one byte's two digits and a one-character separator read back to that byte |
| ArrayExtensions.DumpRoundTrip | src/TMD/Extensions/ArrayExtensions.cs:25-40 | with a one-character line break a dump is three characters per byte and reads back to the array |
| Data.PushOne | Scope.UI/Data/BufferedStream.cs:26-31 | one push step keeps the cursor in range and the size unchanged |
| Data.PushAll | Scope.UI/Data/BufferedStream.cs:22-33 | pushing keeps the buffer well formed and its size unchanged |
| Data.LastOf | Scope.UI/Data/BufferedStream.cs:35-55 | `Last(n)` returns exactly `n` samples |
| Data.PushAllCursor | Scope.UI/Data/BufferedStream.cs:22-33 | pushing advances the cursor by the number of items, modulo the size |
| Data.PushAllConcat | Scope.UI/Data/BufferedStream.cs:22-33 | pushing `a + b` equals pushing `a`, then `b` |
| Data.PushAllSlots | Scope.UI/Data/BufferedStream.cs:22-33 | after at most `size` pushes, a slot within the pushed distance of the old cursor holds its item; every other slot is unchanged |
| Data.PushAllCursorAhead | Scope.UI/Data/BufferedStream.cs:22-33 | at most `size` pushes move the cursor that many places ahead on the ring |
| Data.PushAllSteps | Scope.UI/Data/BufferedStream.cs:22-33 | pushing one more item is one more push step |
| Data.DistBackAhead | Scope.UI/Data/BufferedStream.cs:35-55 | walking back from the new cursor lands on the slots pushed last, in reverse order |
| Data.LastEntry | Scope.UI/Data/BufferedStream.cs:22-55 | after a push of at most `size` items, the `k`-th newest sample is the item pushed `k` places before the last |
| Data.PushThenLast | Scope.UI/Data/BufferedStream.cs:22-55 | pushing `k <= size` items and reading the last `k` gives the items back, newest first |
| Data.Defaults | Scope.UI/Data/BufferedStream.cs:57-61 | `n` default samples |
| Data.ClearedReadsDefault | Scope.UI/Data/BufferedStream.cs:57-61 | after a clear, every read returns default samples, wherever the cursor stands |
| Data.BufferedStream.State | Scope.UI/Data/BufferedStream.cs:14-20 | the object's abstract ring is well formed and has `Size` slots |
| Data.BufferedStream.constructor | Scope.UI/Data/BufferedStream.cs:14-18 | `size` default slots, cursor 0, `Size` reports `size` |
| Data.BufferedStream.Push | Scope.UI/Data/BufferedStream.cs:22-33 | the new state is `PushAll` of the old state and the items; the array stays the same object |
| Data.BufferedStream.Last | Scope.UI/Data/BufferedStream.cs:35-55 | `n` above the size fails with an invalid operation, a negative `n` fails on the array length, and otherwise it returns `LastOf(n)` |
| Data.BufferedStream.Clear | Scope.UI/Data/BufferedStream.cs:57-61 | every slot holds the default sample; the cursor is unchanged |
| StreamSetup.TruncDiv | src/Scope.UI/Probe/ProbeConnection.cs:98 | C# division rounds toward zero: the magnitude is the magnitudes' quotient (the sign is `TruncDivSign`) |
| StreamSetup.TruncDivSign | src/Scope.UI/Probe/ProbeConnection.cs:98 | a non-zero quotient is negative exactly when the operands' signs differ, so with `TruncDiv`'s magnitude the quotient is rounded toward zero |
| StreamSetup.TruncDivRemainder | src/Scope.UI/Probe/ProbeConnection.cs:98 | the remainder `a - q * b` is smaller than the divisor in magnitude and, when non-zero, has the dividend's sign |
| StreamSetup.ToUInt | src/Scope.UI/Probe/ProbeConnection.cs:98 | the unchecked `(uint)` cast keeps values in range and agrees modulo 2^32 |
| StreamSetup.BurstSize | src/Scope.UI/Probe/ProbeConnection.cs:99 | the burst size is between 1 and 300 |
| StreamSetup.DelayIsPeriod | src/Scope.UI/Probe/ProbeConnection.cs:98 | for a positive rate, the delay is the sample period in whole microseconds, rounded down |
| StreamSetup.NegativeRateWraps | src/Scope.UI/Probe/ProbeConnection.cs:98 | a negative rate is not rejected; it wraps to a delay of more than an hour |
| StreamSetup.BurstIsTenthOfSecond | src/Scope.UI/Probe/ProbeConnection.cs:99 | a burst is a tenth of a second of samples, capped at 300 and at least 1 |
| StreamSetup.StreamParameterExamples | src/Scope.UI/Probe/ProbeConnection.cs:98-99 | 1000 samples per second gives a 1000 us period and bursts of 100; 5000 gives 200 us and 300 |
| StreamSetup.StartFrame | src/Scope.UI/Probe/ProbeConnection.cs:108-112 | the start frame is eight bytes |
| StreamSetup.StartFrameDecodes | src/Scope.UI/Probe/ProbeConnection.cs:108-112 | the probe's byte, dword and word readers recover the command, channel count, delay and burst size |
| StreamSetup.CancelSeenExists | src/Scope.UI/Probe/ProbeConnection.cs:119-123 | a cancellation was seen in the first `m` iterations exactly when some iteration below `m` reports one |
| StreamSetup.Sent | src/Scope.UI/Probe/ProbeConnection.cs:119-123 | during the loop the log is the bytes sent before it, then one `StopStream` once cancellation is seen |
| StreamSetup.Dispatch | src/Scope.UI/Probe/ProbeConnection.cs:154-173 | `Streaming` continues; `Finish` ends normally; `ErrorTooFast` fails on throughput; any other byte fails naming it |
| Transport.ReadStep | src/Scope.UI/Probe/ProbeConnection.cs:292 | one read returns at most `count` bytes, and a timed-out read consumes nothing |
| Transport.ReadByteStep | src/Scope.UI/Probe/ProbeConnection.cs:256 | the read gives a byte or -1; it times out exactly when nothing more will come |
| Transport.ReadAllStep | src/Scope.UI/Probe/ProbeConnection.cs:272-279 | reading what has accumulated consumes at most one delivery |
| Transport.Port.constructor | src/Scope.UI/Probe/ProbeConnection.cs:31-36 | a closed port with nothing written |
| Transport.Port.Open | src/Scope.UI/Probe/ProbeConnection.cs:47 | the port is open; the logs are unchanged |
| Transport.Port.Close | src/Scope.UI/Probe/ProbeConnection.cs:201-204 | the port is closed; the logs are unchanged |
| Transport.Port.Write | src/Scope.UI/Probe/ProbeConnection.cs:206-209 | the bytes are appended to the write log |
| Transport.Port.Read | src/Scope.UI/Probe/ProbeConnection.cs:292 | the bytes read are written into the buffer at the offset, and nothing else in it changes |
| Transport.Port.ReadByte | src/Scope.UI/Probe/ProbeConnection.cs:256 | one `ReadByteStep` |
| Transport.Port.ReadAll | src/Scope.UI/Probe/ProbeConnection.cs:272-279 | one `ReadAllStep` |
| Transport.Fill | src/Scope.UI/Probe/ProbeConnection.cs:281-303 | success returns exactly `n` bytes that extend what was read; failure is a timeout that reports how many bytes arrived |
| Transport.FillTimedOut | src/Scope.UI/Probe/ProbeConnection.cs:288-300 | a read that times out ends `ReadExactly` with a timeout reporting the bytes already in |
| Transport.FillGoesOn | src/Scope.UI/Probe/ProbeConnection.cs:290-295 | a read that returns bytes while some are still missing leads to another read |
| Transport.FillStops | src/Scope.UI/Probe/ProbeConnection.cs:290-302 | a read that returns nothing, or the last missing bytes, ends the loop with the zero-padded buffer |
| Transport.FillWholeDelivery | src/Scope.UI/Probe/ProbeConnection.cs:290-295 | a delivery shorter than what is missing is taken whole and the loop goes round again |
| Transport.FillLastDelivery | src/Scope.UI/Probe/ProbeConnection.cs:290-295 | a delivery of exactly the missing bytes completes the buffer and leaves the later deliveries alone |
| Transport.FillSplitDelivery | src/Scope.UI/Probe/ProbeConnection.cs:290-295 | a delivery longer than what is missing gives up only the missing bytes and keeps its rest for the next read |
| Transport.FillChunking | src/Scope.UI/Probe/ProbeConnection.cs:281-303 | with enough bytes and no empty read, `ReadExactly(n)` returns the next `n` bytes of the stream and leaves the rest |
| Transport.FillTimeout | src/Scope.UI/Probe/ProbeConnection.cs:281-303 | with too few bytes, it times out and reports every byte that arrived |
| Transport.FillZeroRead | src/Scope.UI/Probe/ProbeConnection.cs:290-295 | a read that returns nothing ends the loop early, leaving the buffer's zero tail |
| Transport.ReadExactlyChunkingIrrelevant | src/Scope.UI/Probe/ProbeConnection.cs:281-303 | however the same byte stream is split into deliveries, the result is the same |
| Transport.ReadMore | src/Scope.UI/Probe/ProbeConnection.cs:292 | one read asks for the rest of the buffer and places what comes back right after the bytes already read, leaving zeros behind them |
| Transport.ReadExactly | src/Scope.UI/Probe/ProbeConnection.cs:281-303 | the read loop returns what `Fill` specifies and writes nothing |
| Transport.ExpectStep | src/Scope.UI/Probe/ProbeConnection.cs:211-225 | passes exactly when the next byte is the expected one; otherwise it times out or names the byte found |
| Transport.ExpectByte | src/Scope.UI/Probe/ProbeConnection.cs:211-225 | the method does what `ExpectStep` specifies |
| Transport.StatusStep | src/Scope.UI/Probe/ProbeConnection.cs:252-262 | a timeout when nothing comes; otherwise the next byte, or 0xFF for -1 cast to a byte |
| Transport.ReadByte | src/Scope.UI/Probe/ProbeConnection.cs:252-262 | the method does what `StatusStep` specifies |
| Transport.WriteWord | src/Scope.UI/Probe/ProbeConnection.cs:227-230 | appends the word's two little-endian bytes |
| Transport.WriteDWord | src/Scope.UI/Probe/ProbeConnection.cs:232-235 | appends the dword's four little-endian bytes |
| Transport.Open | src/Scope.UI/Probe/ProbeConnection.cs:45-62 | the port stays open exactly when the boot output ends with the welcome bytes |
| Transport.HandshakeAcceptsWelcome | src/Scope.UI/Probe/ProbeConnection.cs:55-56 | boot output ending with the welcome bytes passes, whatever came before them |
| Transport.HandshakeRejectsShort | src/Scope.UI/Probe/ProbeConnection.cs:56 | fewer than eleven boot bytes always fail the handshake |
| Transport.ExpectConsumes | src/Scope.UI/Probe/ProbeConnection.cs:211-225 | an acknowledged expect consumes exactly the expected byte |
| Transport.StatusConsumes | src/Scope.UI/Probe/ProbeConnection.cs:252-262 | a successful status read consumes exactly the byte it returns |
| Transport.ReadOneConsumes | src/Scope.UI/Probe/ProbeConnection.cs:281-303 | reading one byte takes the first byte of the stream |
| Transport.FillConsumes | src/Scope.UI/Probe/ProbeConnection.cs:281-303 | a successful `ReadExactly(n)` consumes exactly the bytes it returns |
| Probe.WaveIndex | src/Scope.UI/Probe/ProbeConnection.cs:126-142 | the table entry played at a sample is a valid index |
| Probe.WaveIndexIsHeldEntry | src/Scope.UI/Probe/ProbeConnection.cs:126-142 | sample `k` plays entry `(k / prescaler) mod 256`: each entry is held for `prescaler` samples and the table repeats |
| Probe.DacResets | src/Scope.UI/Probe/ProbeConnection.cs:102-104 | one `SetDAC(n, 0)` frame per DAC stream, in order |
| Probe.PotiReset | src/Scope.UI/Probe/ProbeConnection.cs:105 | the `SetPoti0(0)` frame: the command and the word 0 |
| Probe.CloseBurst | src/Scope.UI/Probe/ProbeConnection.cs:154-173 | closing a burst moves its frames into the completed bursts, with the status byte after them on the wire |
| Probe.FrameOnWire | src/Scope.UI/Probe/ProbeConnection.cs:125 | a frame read within a burst is the next piece of the wire |
| Probe.StatusOnWire | src/Scope.UI/Probe/ProbeConnection.cs:157 | the status byte read is the byte that follows the burst's frames on the wire |
| Probe.WholeBursts | src/Scope.UI/Probe/ProbeConnection.cs:154-156 | bursts of `size` frames hold `size` frames each in total |
| Probe.Column | src/Scope.UI/Probe/ProbeConnection.cs:148-152 | ADC stream `i` receives byte `i` of every frame, in order |
| Probe.PushAdcSamples | src/Scope.UI/Probe/ProbeConnection.cs:148-152 | every ADC stream's column is extended by its byte of the new frame |
| Probe.WriteStartFrame | src/Scope.UI/Probe/ProbeConnection.cs:108-112 | appends the start frame to the write log |
| Probe.ProbeConnection.constructor | src/Scope.UI/Probe/ProbeConnection.cs:31-41 | two DACs at level 0 without tables or prescalers, and the potentiometer at 0 |
| Probe.ProbeConnection.EnableDACBuffer | src/Scope.UI/Probe/ProbeConnection.cs:64-81 | a table that is not 256 long, or an index of 2 or more, fails with nothing sent or recorded; otherwise it sends the command, prescaler and table, records them, and expects an acknowledgement |
| Probe.ProbeConnection.DisableDACBuffer | src/Scope.UI/Probe/ProbeConnection.cs:83-94 | an index of 2 or more fails with nothing sent; otherwise it sends the disable command, forgets the table, and expects an acknowledgement |
| Probe.ProbeConnection.SetDAC | src/Scope.UI/Probe/ProbeConnection.cs:178-189 | an index of 2 or more fails before anything changes; otherwise it records the level and sends `[SetDAC0 + index, SentCode(level, overflow)]`, the byte its voltage converts to |
| Probe.ProbeConnection.SetPoti0 | src/Scope.UI/Probe/ProbeConnection.cs:191-199 | the value is clamped to 256, recorded, and sent as the command and a little-endian word |
| Probe.ProbeConnection.Dispose | src/Scope.UI/Probe/ProbeConnection.cs:201-204 | the port is closed |
| Probe.ProbeConnection.ResetOutputs | src/Scope.UI/Probe/ProbeConnection.cs:102-105 | sets the first `dacCount` levels and the potentiometer to 0; a third DAC fails after the first two resets |
| Probe.ProbeConnection.Prepare | src/Scope.UI/Probe/ProbeConnection.cs:102-117 | sends the resets, then the start frame, and expects an acknowledgement |
| Probe.TableStep | src/Scope.UI/Probe/ProbeConnection.cs:128-135 | one more sample of a table-driven DAC plays the entry at `pos / prescaler`, a valid index, and the position wraps after 256 × prescaler samples |
| Probe.LevelStep | src/Scope.UI/Probe/ProbeConnection.cs:137-141 | one more sample of a DAC without a table repeats its level |
| Probe.ProbeConnection.PushDacSample | src/Scope.UI/Probe/ProbeConnection.cs:127-140 | one DAC's sample: it fails exactly when the DAC has a table with prescaler 0, which can only be the first sample; otherwise the trace grows by one value and the position advances to the next sample's |
| Probe.ProbeConnection.PushDacSamples | src/Scope.UI/Probe/ProbeConnection.cs:126-142 | each DAC stream receives its table entry at its position, or its level; the positions advance; an enabled table whose prescaler is 0 fails on the first sample |
| Probe.ProbeConnection.Sample | src/Scope.UI/Probe/ProbeConnection.cs:125-152 | on success every stream has one more value, and the frame is the next piece of the wire; on failure nothing is pushed |
| Probe.ProbeConnection.FinishedWhole | src/Scope.UI/Probe/ProbeConnection.cs:154-173 | a stream that finishes has read whole bursts: every stream holds `bursts * burstSize` values |
| Probe.ProbeConnection.Sampled | src/Scope.UI/Probe/ProbeConnection.cs:125-152 | a sample taken while running extends the burst in progress and keeps the loop running |
| Probe.ProbeConnection.SampleLost | src/Scope.UI/Probe/ProbeConnection.cs:125 | a sample that fails ends the stream without extending the burst in progress |
| Probe.ProbeConnection.Take | src/Scope.UI/Probe/ProbeConnection.cs:119-152 | sends the stop command when cancellation is first seen, then takes one sample |
| Probe.ProbeConnection.StatusLost | src/Scope.UI/Probe/ProbeConnection.cs:157 | a full burst whose status byte cannot be read ends the stream with a timeout |
| Probe.ProbeConnection.BurstContinues | src/Scope.UI/Probe/ProbeConnection.cs:159-160 | a full burst followed by `Streaming` closes the burst and keeps the loop running |
| Probe.ProbeConnection.BurstStops | src/Scope.UI/Probe/ProbeConnection.cs:161-172 | a full burst followed by any other status closes the burst and ends the stream as `Dispatch` says |
| Probe.ProbeConnection.EndBurst | src/Scope.UI/Probe/ProbeConnection.cs:154-173 | reads the status byte at the end of a burst and continues or stops as it says |
| Probe.ProbeConnection.Step | src/Scope.UI/Probe/ProbeConnection.cs:117-174 | one pass of the loop keeps the running invariant or ends the stream as `Ended` describes |
| Probe.ProbeConnection.Stream | src/Scope.UI/Probe/ProbeConnection.cs:117-174 | the loop ends in a state that `Ended` describes |
| Probe.ProbeConnection.Receive | src/Scope.UI/Probe/ProbeConnection.cs:112-174 | a failed acknowledgement ends the stream before any pass; otherwise the loop runs |
| Probe.ProbeConnection.NothingPushed | src/Scope.UI/Probe/ProbeConnection.cs:114-116 | before the first pass every stream is empty, which is consistent with its configuration |
| Probe.ProbeConnection.StartStream | src/Scope.UI/Probe/ProbeConnection.cs:96-176 | a rate of 0 fails at the division and more than two DACs fail at the reset; otherwise DAC stream `d` receives its table entry `(k / prescaler) mod 256` or its level, ADC stream `i` receives byte `i` of every frame, the potentiometer stream receives its value, every status before the last is `Streaming` and the last decides the outcome, exactly one stop is sent once cancellation is seen, and a finished stream consumed exactly the acknowledgement and its bursts |
| LegacyProbe.Repeat | Scope.Interface/Probe/ProbeConnection.cs:118-124 | `n` copies of the level |
| LegacyProbe.HeldValues | Scope.Interface/Probe/ProbeConnection.cs:118-124 | a DAC stream holds `burst` copies of its level per accepted burst, and nothing else |
| LegacyProbe.Chunks | Scope.Interface/Probe/ProbeConnection.cs:103 | a burst of `burst * k` bytes is `burst` frames of `k` bytes |
| LegacyProbe.StrideShift | Scope.Interface/Probe/ProbeConnection.cs:126-133 | striding past a whole frame is striding over the rest of the burst |
| LegacyProbe.StrideIsColumn | Scope.Interface/Probe/ProbeConnection.cs:126-133 | the strided loop gives ADC stream `i` byte `i` of every frame, which is what the current engine pushes frame by frame |
| LegacyProbe.StrideCount | Scope.Interface/Probe/ProbeConnection.cs:126-133 | a burst of `burst` frames gives every ADC stream `burst` values |
| LegacyProbe.StridesCount | Scope.Interface/Probe/ProbeConnection.cs:126-133 | every accepted burst adds `burst` values to each ADC stream |
| LegacyProbe.BurstConsumes | Scope.Interface/Probe/ProbeConnection.cs:103-104 | reading a burst and its status consumes exactly those bytes |
| LegacyProbe.WireAppend | Scope.Interface/Probe/ProbeConnection.cs:103-116 | accepting a burst appends its bytes and `Streaming` to the wire |
| LegacyProbe.WireStep | Scope.Interface/Probe/ProbeConnection.cs:103-104 | a burst and its status read off the port follow the accepted bursts on the wire |
| LegacyProbe.ProbeConnection.constructor | Scope.Interface/Probe/ProbeConnection.cs:24-32 | two DACs at level 0 |
| LegacyProbe.ProbeConnection.EnableDACBuffer | Scope.Interface/Probe/ProbeConnection.cs:55-70 | a table that is not 256 long, or an index of 2 or more, fails with nothing sent; otherwise it sends the command, prescaler and table, and expects an acknowledgement |
| LegacyProbe.ProbeConnection.DisableDACBuffer | Scope.Interface/Probe/ProbeConnection.cs:72-81 | an index of 2 or more fails; otherwise it sends the disable command and expects an acknowledgement |
| LegacyProbe.ProbeConnection.SetDAC | Scope.Interface/Probe/ProbeConnection.cs:139-148 | an index of 2 or more fails before anything changes; otherwise it records the level and sends `[SetDAC0 + index, SentCode(level, overflow)]`, the byte its voltage converts to |
| LegacyProbe.ProbeConnection.PushDacBurst | Scope.Interface/Probe/ProbeConnection.cs:118-124 | each DAC stream receives `burst` copies of its level; a third DAC fails after the first two |
| LegacyProbe.ProbeConnection.PushAdcBurst | Scope.Interface/Probe/ProbeConnection.cs:126-133 | ADC stream `i` receives the bytes at `i, i + k, i + 2k, ...` of the burst |
| LegacyProbe.ProbeConnection.DeliverBurst | Scope.Interface/Probe/ProbeConnection.cs:118-133 | pushing one more accepted burst extends every stream by that burst's values |
| LegacyProbe.ProbeConnection.Fetch | Scope.Interface/Probe/ProbeConnection.cs:94-105 | sends the stop command when cancellation is first seen, then reads the burst and its status |
| LegacyProbe.ProbeConnection.Lost | Scope.Interface/Probe/ProbeConnection.cs:103-104 | a burst or status that cannot be read ends the stream with that error |
| LegacyProbe.ProbeConnection.Stopped | Scope.Interface/Probe/ProbeConnection.cs:105-116 | a status other than `Streaming` ends the stream as it says, without pushing the burst |
| LegacyProbe.ProbeConnection.Accepted | Scope.Interface/Probe/ProbeConnection.cs:105-133 | a burst followed by `Streaming` is pushed, and the loop keeps running |
| LegacyProbe.ProbeConnection.Overflowed | Scope.Interface/Probe/ProbeConnection.cs:118-124 | with a third DAC stream the first accepted burst fails on its index, before any ADC push |
| LegacyProbe.ProbeConnection.Deliver | Scope.Interface/Probe/ProbeConnection.cs:118-133 | after `Streaming`, pushes the burst to every stream |
| LegacyProbe.ProbeConnection.Step | Scope.Interface/Probe/ProbeConnection.cs:94-134 | one pass keeps the running invariant or ends the stream as `Ended` describes |
| LegacyProbe.ProbeConnection.Begins | Scope.Interface/Probe/ProbeConnection.cs:92-94 | once the acknowledgement is read, the loop starts with empty streams, no accepted burst, nothing sent beyond the start frame and only the acknowledgement consumed |
| LegacyProbe.ProbeConnection.Stream | Scope.Interface/Probe/ProbeConnection.cs:94-134 | the loop ends in a state that `Ended` describes |
| LegacyProbe.ProbeConnection.StartStream | Scope.Interface/Probe/ProbeConnection.cs:83-137 | a rate of 0 fails at the division; otherwise it sends the start frame with no output reset; DAC stream `d` holds its level `burst` times per accepted burst; ADC stream `i` holds the strides of the accepted bursts; the status that ended the stream decides the outcome; one stop is sent once cancellation is seen; a third DAC fails exactly when a burst was accepted |
| ReadStream.Dealt | Scope.UI/Interface/Probe/ReadStreamCommand.cs:49-55 | what stream `i` receives when the round-robin starts at stream `start` |
| ReadStream.ResidueIff | Scope.UI/Interface/Probe/ReadStreamCommand.cs:49-55 | position `m` goes to stream `i` exactly when `m` is `i` plus a multiple of `k` |
| ReadStream.StrideSnoc | Scope.UI/Interface/Probe/ReadStreamCommand.cs:49-55 | one more byte extends stride `n` exactly when its index is `n` plus a multiple of `k` |
| ReadStream.DealtFromZero | Scope.UI/Interface/Probe/ReadStreamCommand.cs:49-55 | dealt from stream 0, stream `i` receives the bytes at `i, i + k, ...`, as the older engine's strided loop does |
| ReadStream.Stops | Scope.UI/Interface/Probe/ReadStreamCommand.cs:40-44 | the stop commands sent by the first `m` passes |
| ReadStream.StopPerRequest | Scope.UI/Interface/Probe/ReadStreamCommand.cs:40-44 | every pending request yields exactly one `StopStream` byte; some stop is sent exactly when a cancellation was seen |
| ReadStream.StopStep | Scope.UI/Interface/Probe/ReadStreamCommand.cs:40-44 | a pass with no request pending sends nothing; one with a request sends one stop |
| ReadStream.Lost | Scope.UI/Interface/Probe/ReadStreamCommand.cs:46-47 | a pass that times out leaves the pushed values as they were |
| ReadStream.Rejected | Scope.UI/Interface/Probe/ReadStreamCommand.cs:69-88 | a status other than `Streaming` or `Finish` fails the pass before its burst is pushed |
| ReadStream.Pushed | Scope.UI/Interface/Probe/ReadStreamCommand.cs:47-58 | a pass that ends in `Streaming` or `Finish` pushes its burst; after `Finish` the loop stops |
| ReadStream.PushedValues | Scope.UI/Interface/Probe/ReadStreamCommand.cs:49-55 | pushing a burst dealt from stream 0 appends its stride to every stream |
| ReadStream.ReceivedStep | Scope.UI/Interface/Probe/ReadStreamCommand.cs:46-47 | a burst and its status extend what was received by exactly those bytes |
| ReadStream.Realigned | Scope.UI/Interface/Probe/ReadStreamCommand.cs:49-55 | every burst starts with the round-robin index back at stream 0 |
| ReadStream.ReadStreamCommand.constructor | Scope.UI/Interface/Probe/ReadStreamCommand.cs:20-25 | the sample period and burst size come from the rate; the streams start empty |
| ReadStream.ReadStreamCommand.Create | Scope.UI/Interface/Probe/ReadStreamCommand.cs:20-25 | a rate of 0 fails at the division; any other rate gives a command that is not running |
| ReadStream.ReadStreamCommand.Cancel | Scope.UI/Interface/Probe/ReadStreamCommand.cs:61-67 | refused unless the command is running; otherwise it only raises the flag |
| ReadStream.ReadStreamCommand.ValidateStreamingStatusResponse | Scope.UI/Interface/Probe/ReadStreamCommand.cs:69-88 | `Finish` clears the running flag, `Streaming` changes nothing, and any other byte fails |
| ReadStream.ReadStreamCommand.Deal | Scope.UI/Interface/Probe/ReadStreamCommand.cs:49-55 | each stream receives its dealt bytes, and the index steps on by the buffer length, modulo `k` |
| ReadStream.ReadStreamCommand.CheckCancel | Scope.UI/Interface/Probe/ReadStreamCommand.cs:40-44 | a pending request becomes one stop command and is lowered |
| ReadStream.ReadStreamCommand.Fetch | Scope.UI/Interface/Probe/ReadStreamCommand.cs:46-47 | on success the burst and status are the next bytes of the stream |
| ReadStream.ReadStreamCommand.Step | Scope.UI/Interface/Probe/ReadStreamCommand.cs:38-58 | one pass keeps `Running`, or ends in `Failed` with the error it throws |
| ReadStream.ReadStreamCommand.Start | Scope.UI/Interface/Probe/ReadStreamCommand.cs:29-36 | sends the start frame, then expects the acknowledgement |
| ReadStream.ReadStreamCommand.Stream | Scope.UI/Interface/Probe/ReadStreamCommand.cs:38-58 | runs passes while the command is running |
| ReadStream.ReadStreamCommand.Execute | Scope.UI/Interface/Probe/ReadStreamCommand.cs:27-59 | a failed acknowledgement changes nothing else; a finished run pushed every burst's strides, sent one stop per request and clears the running flag; a failed pass leaves the flag raised |
| Upstream.Serial.constructor | Probe/Upstream.cpp:3-8 | a port not yet begun, with nothing received or sent |
| Upstream.Serial.Available | Probe/Upstream.cpp:17 | a poll takes in the next chunk and reports the bytes waiting; nothing pending is lost |
| Upstream.Serial.Read | Probe/Upstream.cpp:18 | takes the oldest waiting byte |
| Upstream.Serial.Put | Probe/Upstream.cpp:44 | appends one byte to the output |
| Upstream.Serial.WaitFor | Probe/Upstream.cpp:23 | the busy wait ends with at least `count` bytes waiting |
| Upstream.Serial.Print | Probe/Upstream.cpp:6 | appends the text, so the output ends with it |
| Upstream.Serial.Init | Probe/Upstream.cpp:3-8 | begins the port and greets the host: the output ends with the welcome bytes |
| Upstream.Serial.End | Probe/Upstream.cpp:10-13 | ends the port; nothing else changes |
| Upstream.Serial.ReadByte | Probe/Upstream.cpp:15-19 | waits for a byte and takes the next one the host sent |
| Upstream.Serial.ReadDWord | Probe/Upstream.cpp:21-29 | takes the next four bytes, least significant first, and they are `DWord` of the value |
| Upstream.ShiftsAddUp | Probe/Upstream.cpp:24-27 | the 32-bit sums never wrap: they assemble the little-endian value |
| Upstream.Serial.ReadWordAsWritten | Probe/Upstream.cpp:31-35 | the value depends on the order the compiler evaluates the two reads in |
| Upstream.ReadWordOrderCounterexample | Probe/Upstream.cpp:34 | `[1, 0]` reads as 1 left to right and as 256 right to left |
| Upstream.Serial.ReadWord | Probe/Upstream.cpp:31-35 | takes the next two bytes, low byte first, and they are `Word` of the value |
| Upstream.Serial.CanReadByte | Probe/Upstream.cpp:37-40 | true exactly when a byte is waiting, and then a read needs no wait |
| Upstream.Serial.Write | Probe/Upstream.cpp:42-45 | appends one byte |
| Upstream.Serial.WriteWord | Probe/Upstream.cpp:47-51 | appends the low byte, then the high byte, which the host reads back as the word |
| Upstream.Serial.Dump | Probe/Upstream.cpp:53-57 | echoes every waiting byte, in order, until a poll finds nothing |
| Dac.Clamp | src/Scope.UI/ViewModel/MainViewModel.cs:363 | a byte stays as it is; below 0 gives 0, above 255 gives 255 |
| Dac.ClampIsNearest | src/Scope.UI/ViewModel/MainViewModel.cs:363 | no byte is closer to the value than its clamp, and clamping is idempotent |
| Dac.ByteCast | src/Scope.UI/ViewModel/MainViewModel.cs:427-428 | the unchecked `(byte)` cast keeps 0..255 and adds 256 to -256..-1 |
| Dac.RampUpTable | src/Scope.UI/ViewModel/MainViewModel.cs:419 | 256 entries; entry `x` is `x` |
| Dac.RampDownTable | src/Scope.UI/ViewModel/MainViewModel.cs:423 | 256 entries; entry `x` is `255 - x` |
| Dac.TriangleTable | src/Scope.UI/ViewModel/MainViewModel.cs:427-428 | 256 entries; entry `x` is `2x` below 128, and `511 - 2x` after the cast wraps |
| Dac.RampsMirror | src/Scope.UI/ViewModel/MainViewModel.cs:419-423 | the ramps mirror each other, and their entries add up to 255 |
| Dac.TriangleRisesThenFalls | src/Scope.UI/ViewModel/MainViewModel.cs:427-428 | the triangle climbs by 2 from 0 to 254, jumps to 255, and falls by 2 to 1 |
| Dac.Table | src/Scope.UI/ViewModel/MainViewModel.cs:408-435 | `User` has no table; `Sine` uploads the sine table; each other function uploads its own |
| Dac.TablesAreFull | src/Scope.UI/ViewModel/MainViewModel.cs:415-428 | every generated table is 256 long, so the connection's length check passes |
| Dac.DacRawToVoltage | src/Scope.UI/ViewModel/MainViewModel.cs:470-473 | a code maps into 0..5 V; 0 maps to 0 V and 255 to 5 V |
| Dac.VoltageToCodeAsWritten | src/Scope.UI/Probe/ProbeConnection.cs:187 | the truncated `voltage / 5 * 256` |
| Dac.FullScaleOverflows | src/Scope.UI/Probe/ProbeConnection.cs:187 | full scale converts to 256, one past the largest byte; every lower level converts back to itself |
| Dac.SentCode | src/Scope.UI/Probe/ProbeConnection.cs:187 | the byte sent for a level's voltage: the level itself below 255, and at 255 the unspecified result `overflow` of casting 256.0 |
| Dac.VoltageToCode | src/Scope.UI/Probe/ProbeConnection.cs:187 | the truncated `voltage / 5 * 255`: a byte for every voltage in 0..5 |
| Dac.VoltageRoundTrip | src/Scope.UI/Probe/ProbeConnection.cs:187 | a level converted to a voltage and back is the level again |
| MainView.Prescaler | src/Scope.UI/ViewModel/MainViewModel.cs:33-34 | DAC 0 holds each table entry for 4 samples and DAC 1 for 2; neither is 0 |
| MainView.StreamLayout | src/Scope.UI/ViewModel/MainViewModel.cs:482-492 | the DAC streams, then the ADC streams, then the potentiometer |
| MainView.NewChannelConfigurations | src/Scope.UI/ViewModel/MainViewModel.cs:534-559 | one configuration per stream, in order: 0-5 V, or 0-10 kOhm for the potentiometer |
| MainView.InitialConfigurations | src/Scope.UI/ViewModel/MainViewModel.cs:494-532 | the stored configurations when their count matches the streams; fresh ones otherwise |
| MainView.MismatchedCountIsReset | src/Scope.UI/ViewModel/MainViewModel.cs:499-505 | a stored list of the wrong length is replaced by configurations that describe the streams in order |
| MainView.MainViewModel.constructor | src/Scope.UI/ViewModel/MainViewModel.cs:482-492 | disconnected, both DACs at 0 on `User`, configured from the stored settings |
| MainView.MainViewModel.OnDacValueChanged | src/Scope.UI/ViewModel/MainViewModel.cs:359-374 | the connection records the clamped slider level; it sends `[SetDAC0 + index, level]` below full scale and `[SetDAC0 + index, overflow]` at 255; tables, prescalers and the potentiometer value are unchanged |
| MainView.MainViewModel.SetDacValue | src/Scope.UI/ViewModel/MainViewModel.cs:54-81 | a new value is stored and its clamped level recorded; the level is sent below full scale and `overflow` at 255; the same value again sends nothing; tables, prescalers and the potentiometer value are unchanged |
| MainView.MainViewModel.OnDacFunctionChanged | src/Scope.UI/ViewModel/MainViewModel.cs:408-435 | nothing while disconnected; `User` disables the DAC's table; any other function uploads its table with the prescaler; a sine table of the wrong length fails with nothing sent |
| MainView.MainViewModel.SetDacFunction | src/Scope.UI/ViewModel/MainViewModel.cs:164-191 | a changed function is stored and applied with the DAC's own prescaler: `User` disables the table, another function uploads its table, each then expecting the acknowledgement, and a Sine table of the wrong length fails with nothing sent; the same function again, or a disconnected view, sends nothing; levels and the potentiometer value are unchanged |
| LegacyView.SetDacCode | Scope.UI/ViewModel/MainViewModel.cs:308-310 | the opcode is `SetDAC0 + index` |
| LegacyView.ResetFrame | Scope.UI/ViewModel/MainViewModel.cs:372-382 | moving a slider to 0 writes a frame only if it was not already 0 |
| LegacyView.MainViewModel.NewStreams | Scope.UI/ViewModel/MainViewModel.cs:195-206 | six empty streams of 3000 samples, with distinct arrays |
| LegacyView.MainViewModel.constructor | Scope.UI/ViewModel/MainViewModel.cs:189-218 | disconnected, not streaming, six empty streams, both DACs at 0 on `User`, every line at 0 |
| LegacyView.MainViewModel.OnDacValueChanged | Scope.UI/ViewModel/MainViewModel.cs:301-339 | ignored unless streaming; otherwise writes `[SetDAC0 + index, level]` of the clamped level, and the line shows its voltage |
| LegacyView.MainViewModel.SetDacValue | Scope.UI/ViewModel/MainViewModel.cs:48-75 | only a changed value reaches the handler |
| LegacyView.MainViewModel.OnDacFunctionChanged | Scope.UI/ViewModel/MainViewModel.cs:341-369 | no request exactly when disconnected; `User` disables the table; any other function uploads its table |
| LegacyView.MainViewModel.SetDacFunction | Scope.UI/ViewModel/MainViewModel.cs:134-160 | only a changed function reaches the handler |
| LegacyView.MainViewModel.ClearStreams | Scope.UI/ViewModel/MainViewModel.cs:378-379 | every stream holds only default samples, with its cursor unchanged |
| LegacyView.MainViewModel.ResetViewData | Scope.UI/ViewModel/MainViewModel.cs:372-382 | both sliders at 0 (a frame for each slider that moves while streaming), every stream cleared, every line at 0 |

## Left out

- Floating point: voltages are exact rationals. Pushed samples are the raw integers (DAC
  codes and table entries, potentiometer steps, ADC bytes) before the host divides them
  for display.
- `SineWave256` computes its table in floating point, so the sine table is a parameter.
- Threads, `Task`s, locks and `CancellationToken`: a cancellation request is an oracle
  answer per loop iteration. `Cancel` of the command object is modelled as one call
  between passes.
- Probe.ProbeConnection.StartStream runs on its own task in the source while the slider
  handlers keep calling `SetDAC`, `SetPoti0` and the DAC buffer commands from the UI
  thread. The model does not interleave those calls with a stream: levels, tables,
  prescalers and the potentiometer value are fixed for the whole stream, and the write
  log holds no frames from other threads. Since the stream starts with `ResetOutputs`,
  every push of a level-driven DAC stream and of the potentiometer stream is 0 in the
  model, where the source pushes whatever the sliders were moved to during the stream.
  LegacyProbe.ProbeConnection.StartStream is not interleaved either: it pushes the levels
  held when the stream started, although the older view's slider acts only while
  streaming, and the write log (`Sent`) has no room for the slider's frames between the
  stream's own.
- Serial-port configuration: DTR toggling, the boot delay, the baud rate, buffer sizes
  and the timeout values. A timeout is the end of the deliveries. `flush` on the
  firmware side is left out.
- The host's `ExpectWord` and `ReadWord` (src/Scope.UI/Probe/ProbeConnection.cs:237-250)
  have no caller in the core.
- The exception message texts, and the hex dumps built for them, are not modelled. The
  errors themselves are.
- `BurstReceived` events, redrawing, colours and the line configurations' display
  properties.
- Settings and JSON: a stored channel configuration is given as an option value. An
  empty or unreadable setting is `None`.
- The views' connect, start-stream and stop command handlers, and `OnPoti0ValueChanged`.
  They only forward to the modelled connection methods.
- MainView.MainViewModel.OnDacValueChanged: writes to a closed or timed-out port, and the
  view's `catch` that then disposes the connection and disconnects, are not modelled.
  The slider handlers have no connected guard, so after a failed connect or a stream
  error a slider move would throw there; in the model `Port.Write` always succeeds.
  - The case where the connection is still null before connecting is not modelled
    either: the view always holds a connection object.
- Transport.Port.Write appends to the write log whether or not the port is open.
  `SerialPort.Write` throws on a closed port and on a write timeout; neither failure is
  modelled, here or in the connection methods that write.
- ReadStream: the command calls the connection's `WriteBytes`, `ReadBuffer`,
  `ExpectByte` and `ReadByte` helpers, whose source is not part of this model (the
  Scope.Interface connection keeps them private). The model takes them to behave as
  `Transport.Port.Write`, `Transport.ReadExactly`, `Transport.ExpectStep` and
  `Transport.StatusStep` do.
- Probe.ProbeConnection.SetDAC takes the level whose `DACRawToVoltage` is the voltage,
  not an arbitrary voltage; that is what every caller in the core passes. The voltage it
  records is held as that level. The same holds for LegacyProbe.ProbeConnection.SetDAC.
- ArrayExtensions.DumpRoundTrip reads a dump back only for a one-character line break.
  With a two-character `Environment.NewLine` (`"\r\n"`) the groups are not all three
  characters long, and `Undump` does not split on line breaks.
- Data.BufferedStream.Push requires a positive size when something is pushed. The
  source's `IndexOutOfRangeException` for a zero-size buffer is not modelled; every view
  creates its buffers with 3000 entries. The constructor takes a `nat`, so the
  `OverflowException` of `new T[size]` for a negative size is not modelled either.
- LegacyView.MainViewModel.OnDacFunctionChanged: the older view calls a two-argument
  `EnableDACBuffer` that is not part of this model. It returns the request it makes
  instead of sending it.
- Firmware busy waits are loops that require the host to send enough eventually. Each
  `available()` poll takes in at most one more chunk.
- Probe/Hardware.cpp and the firmware's command dispatch are not part of this model.
- Integer widths:
  - bytes, words and dwords are subset types;
  - C# unchecked casts are written out as `ToByte`, `ByteCast` and `ToUInt`;
  - the other sums cannot overflow.

## Findings

| source | as written | input that shows it | evidently intended | confidence | as-written member | corrected member |
|---|---|---|---|---|---|---|
| src/Scope.UI/Probe/ProbeConnection.cs:187 | the code sent for a voltage is `(byte)(voltage / 5 * 256)` | a slider at 255 becomes 5.0 V (`255 * 5 / 255`); the conversion gives 256, which does not fit a byte, so full scale is not sent as 255 | scale by the largest code, 255, so that every slider level converts back to itself | not executed | Dac.VoltageToCodeAsWritten, Dac.FullScaleOverflows, Dac.SentCode | Dac.VoltageToCode, Dac.VoltageRoundTrip |
| Probe/Upstream.cpp:34 | `read() + (read() << 8)`: the order of the two reads is unspecified in C++ | the host's `WriteWord(1)` sends `[1, 0]`, which reads as 256 when the right operand is evaluated first | read the low byte, then the high byte | not executed | Upstream.Serial.ReadWordAsWritten, Upstream.ReadWordOrderCounterexample | Upstream.Serial.ReadWord |
