# SILK v3 voice decode session, modelled in Dafny

This project models `silk_v3_decoder`, the function that turns a SILK v3 voice container into raw
16-bit PCM. It covers the following steps:

- It checks the container's magic header.
- It sets up the decoder.
- It primes a three-slot lookahead window with the first two packets.
- For each further packet, it runs one step:
  - append the packet to the window;
  - decide whether the head packet is present or lost;
  - for a lost head packet, search the later packets for in-band redundancy (LBRR) data;
  - run the decode loop, where the sixth call in a row drops all kept samples, its own included;
  - write the samples kept as PCM, in the machine's byte order;
  - slide the window;
  - send a progress event.

The foreign SILK SDK is modelled as an oracle. It is a datatype of functions, and a decode call
answers from the full history of calls made before it.

The model has two layers:

- **Specification functions.** `Container`, `Window`, `DecodeLoop` and `SessionSpec` describe
  the session as functions of the input file, the SDK and the progress channel. The properties
  of the session are proved about these functions.
- **Imperative session.** `Session.DecodeSession` is a class whose fields are the program's own
  state:
  - the input file and its cursor;
  - the 15360-byte `payload` buffer, the `n_bytes_per_packet` array and `payload_end`;
  - the 9600-sample `out` buffer;
  - `dec_control`;
  - the decoder state;
  - the PCM output and the events sent.

  Its methods are proved equal to the specification functions. `Session.SilkV3Decoder` returns
  exactly `SessionSpec.Session`, so every property proved about `Session` holds of the
  imperative session.

The session ends in one of three ways:

- It returns `Ok`.
- It returns an `io::Error`: `UnexpectedEof`, a wrong header, or a failure of a set-up or
  decode call.
- It panics. A negative or oversized packet slice, an overrun of `out`, or `unwrap` on a closed
  progress channel each end in a panic.

The decoder state is released only when the session returns `Ok`.

The main loop stops at the first short read or negative length. The two packets still held in
the window are never decoded. `SessionSpec.SessionCountsPackets` states this as: a session that
returns `Ok` has sent exactly two events fewer than the container has packets.

Four behaviours of the code that a reader may not expect:

- During priming, a short read returns `UnexpectedEof`, and a negative length panics on the
  buffer slice. Neither is treated as end of stream.
- A header cut short is `UnexpectedEof`. It is not a wrong-header error.
- A lost packet with no redundancy data is decoded with loss flag 1. The bytes passed are the
  start of the window buffer, as many as the newly read packet has. They are not an empty
  payload.
- The decoder state is not released on the error paths after allocation.

## Model

| member | source | states |
|---|---|---|
| Bytes.I16FromLE | src-tauri/src/voice_decode.rs:106-109 | the two length bytes, low byte first, are negative exactly when the high byte is at least 0x80, and otherwise equal lo + 256·hi |
| Bytes.I16RoundTrip | src-tauri/src/voice_decode.rs:106-109 | reading back an encoded 16-bit value gives the value |
| Bytes.I16BytesRoundTrip | src-tauri/src/voice_decode.rs:106-109 | every pair of length bytes is the encoding of the value read from it |
| Bytes.EncodePcm | src-tauri/src/voice_decode.rs:247-249 | the write of `tot_len` samples is exactly 2·`tot_len` bytes |
| Bytes.EncodePcmAppend | src-tauri/src/voice_decode.rs:247-249 | writing two runs of samples one after the other gives the encoding of both runs together |
| Bytes.PcmRoundTrip | src-tauri/src/voice_decode.rs:247-249 | decoding the PCM bytes gives back exactly the samples written |
| Container.CheckHeader | src-tauri/src/voice_decode.rs:57-75 | an accepted header ends within the file |
| Container.HeaderAcceptedIff | src-tauri/src/voice_decode.rs:57-75 | the header is accepted iff 0x02 is followed by "#!SILK_V3", or another byte by "!SILK_V3"; packets then start at offset 10 or 9; it is cut short iff the file is too short for the magic its first byte selects |
| Container.PlainHeaderIgnoresFirstByte | src-tauri/src/voice_decode.rs:58-61 | any first byte other than 0x02 is accepted in front of "!SILK_V3": that byte is never compared |
| Container.MarkerRequiresHash | src-tauri/src/voice_decode.rs:67-69 | after 0x02, "!SILK_V3" without the '#' is a wrong header |
| Container.ReadFrame | src-tauri/src/voice_decode.rs:121-139 | a packet is read iff two length bytes remain, the length is non-negative and the payload is complete; it is the bytes after the length field |
| Container.ReadFrames | src-tauri/src/voice_decode.rs:104-139 | the packet sequence the reader finds in the stream; each packet costs at least its two length bytes, so there are at most half as many packets as bytes (inverse: `FramesRoundTrip`) |
| Container.FramesRoundTrip | src-tauri/src/voice_decode.rs:104-139 | length-prefixed framing is lossless: packets written with their lengths are read back in order |
| Container.NextPacket | src-tauri/src/voice_decode.rs:121-139 | a packet the reader stores lies just after its length field, fits the free room of the buffer and a 16-bit length |
| Container.NextPacketAt | src-tauri/src/voice_decode.rs:121-139 | a stored packet is the next packet of the container; a short read or a negative length means no packet is left |
| Container.NextPacketSized | src-tauri/src/voice_decode.rs:110-135 | when all lengths are at most 5120, a negative length comes only after priming and a payload is refused only when less than 5120 bytes are free |
| Container.Advance | src-tauri/src/voice_decode.rs:121-139 | each read moves one packet from those still to come to those read, or finds that every packet has been read |
| Outcomes.Percent | src-tauri/src/voice_decode.rs:259-260 | the progress percentage lies between 0 and 100 and is 100 at the end of the file |
| Outcomes.EventsAppend | src-tauri/src/voice_decode.rs:259-267 | an event at a later stream position keeps the events strictly increasing |
| Window.PacketOf | src-tauri/src/voice_decode.rs:110-112 | the bytes of a slot are as many as its recorded length |
| Window.HoldsInEnd | src-tauri/src/voice_decode.rs:110-146 | `payload_end` is the sum of the lengths of the packets held |
| Window.HoldsInSamePrefix | src-tauri/src/voice_decode.rs:134-139 | a failed payload read, which touches only bytes past `payload_end`, keeps the packets held |
| Window.HoldsInAppend | src-tauri/src/voice_decode.rs:134-146 | writing a payload at `payload_end` and recording its length in the next slot adds it as the newest packet held |
| Window.HoldsInSlide | src-tauri/src/voice_decode.rs:255-257 | sliding a full window drops the head packet and keeps the other two, in order |
| Window.HoldsInTile | src-tauri/src/voice_decode.rs:142-180 | a full buffer starts with its three packets back to back |
| Window.FirstRecovery | src-tauri/src/voice_decode.rs:154-175 | the redundancy search over the later slots: a payload found comes from a slot in range whose packet is nonempty and yields it, searched at that slot's offset (earliest such: `FirstRecoveryIsFirst`) |
| Window.FirstRecoveryIsFirst | src-tauri/src/voice_decode.rs:152-175 | a redundancy payload is found iff some later nonempty packet yields one; it comes from the earliest such packet |
| Window.LookaheadWindow.constructor | src-tauri/src/voice_decode.rs:42-44 | the new window holds no packet, and its lengths are all 0 |
| Window.LookaheadWindow.Commit | src-tauri/src/voice_decode.rs:111-112 | recording a packet sets its slot's length and advances `payload_end` by it |
| Window.LookaheadWindow.Slide | src-tauri/src/voice_decode.rs:255-257 | `copy_within` moves bytes `[n0, payload_end)` to the front and leaves the rest; `payload_end` drops by `n0`; the lengths become `[n1, n2, n2]` |
| Window.LookaheadWindow.DropHead | src-tauri/src/voice_decode.rs:255-257 | after the slide, the window holds slots 1 and 2 in slots 0 and 1 |
| Window.LookaheadWindow.SearchLbrr | src-tauri/src/voice_decode.rs:152-175 | the loop over slots 1 and 2, skipping empty ones and searching each at its running offset, returns the first payload found |
| InputStream.InputFile.constructor | src-tauri/src/voice_decode.rs:54 | the opened file holds its full contents with the cursor at offset 0 |
| InputStream.InputFile.ReadExact | src-tauri/src/voice_decode.rs:57-68 | `read_exact` succeeds iff enough bytes remain and returns them; otherwise it consumes the rest of the file |
| InputStream.InputFile.ReadExactInto | src-tauri/src/voice_decode.rs:134-139 | a successful read fills exactly the target range with the next bytes; nothing outside the range changes |
| DecodeLoop.Retained | src-tauri/src/voice_decode.rs:207-214 | the frames kept since the last resync are at most five |
| DecodeLoop.RetainedNext | src-tauri/src/voice_decode.rs:207-214 | one more decode call keeps one more frame, except that the sixth resets the count to 0 |
| DecodeLoop.KeepStep | src-tauri/src/voice_decode.rs:207-214 | the resync keeps `out` holding exactly the samples of the frames counted since the last reset |
| DecodeLoop.FrameLoop | src-tauri/src/voice_decode.rs:186-218 | the present-packet loop with resync ends `Ok`, `DecodeFailed` or in an overrun of `out`, and in no other way (its calls, where it stops and the samples it keeps: `FrameLoopHistory`, `FrameLoopStops`, `FrameLoopKeeps`) |
| DecodeLoop.FrameLoopHistory | src-tauri/src/voice_decode.rs:186-218 | the present-packet loop makes at least one call, each with loss flag 0 and the packet's bytes, passing on the control block of the call before |
| DecodeLoop.FrameLoopStops | src-tauri/src/voice_decode.rs:186-218 | the loop stops at its first failing call or at its first call reporting no more internal frames; it fails with `DecodeFailed` iff the last status is nonzero |
| DecodeLoop.FrameLoopKeeps | src-tauri/src/voice_decode.rs:207-214 | at the end, `out` holds the samples of the loop's last `Retained` calls, in order |
| DecodeLoop.FrameLoopFits | src-tauri/src/voice_decode.rs:45-218 | with at most 960 samples per call, the 9600-sample `out` is never overrun |
| DecodeLoop.ConcealLoop | src-tauri/src/voice_decode.rs:220-241 | the concealment loop ends `Ok`, `DecodeFailed` or in an overrun of `out`; it never removes a call from the history; the samples it keeps, starting from samples that fit `out`, still fit it (its calls and samples: `ConcealLoopHistory`, `ConcealLoopStops`) |
| DecodeLoop.ConcealLoopHistory | src-tauri/src/voice_decode.rs:220-241 | the lost-packet loop calls the decoder at most `framesPerPacket` times, and exactly that many when it succeeds, each with loss flag 1 |
| DecodeLoop.ConcealLoopStops | src-tauri/src/voice_decode.rs:220-241 | it fails iff its last call returned a nonzero status; on success `out` holds all the samples of its calls, in order |
| DecodeLoop.ConcealLoopFits | src-tauri/src/voice_decode.rs:220-241 | with at most five frames of 960 samples, `out` is never overrun |
| SessionSpec.PacketAlwaysKept | src-tauri/src/voice_decode.rs:143-150 | the random drop test holds for every `rand()` value, so every packet read is kept |
| SessionSpec.HeadPlan | src-tauri/src/voice_decode.rs:152-180 | the loss flag is 0 or 1; a flag-0 decode always has a nonempty payload; concealment passes as many bytes as the newest packet has (which case applies: `HeadPlanCases`) |
| SessionSpec.HeadPlanCases | src-tauri/src/voice_decode.rs:152-180 | concealment with loss flag 1 happens iff the head packet is empty and no later packet yields redundancy; otherwise the head packet, or the first redundancy payload found, is decoded with flag 0 |
| SessionSpec.HeadDecode | src-tauri/src/voice_decode.rs:182-242 | a step's decode, by either loop, ends `Ok`, `DecodeFailed` or in an overrun of `out` (no overrun within the SILK limits: `HeadDecodeEnds`) |
| SessionSpec.HeadDecodeEnds | src-tauri/src/voice_decode.rs:182-242 | a step's decode ends without error, with `DecodeFailed`, or with an overrun, and never with an overrun within the SILK limits |
| SessionSpec.PrimeFrom | src-tauri/src/voice_decode.rs:104-114 | priming that succeeds holds two packets and leaves the cursor within the file |
| SessionSpec.PrimeReads | src-tauri/src/voice_decode.rs:104-114 | priming reads the first two packets; `UnexpectedEof` only on fewer than two packets; a panic only on lengths that do not fit |
| SessionSpec.SessionStep | src-tauri/src/voice_decode.rs:121-268 | a step that goes on has advanced the cursor and holds two packets |
| SessionSpec.MainLoop | src-tauri/src/voice_decode.rs:121-269 | the main loop always ends |
| SessionSpec.StepReads | src-tauri/src/voice_decode.rs:121-139 | a step ends without error iff the length read is short or negative, panics on a slice only for an oversized payload, and goes on only with a stored packet |
| SessionSpec.StepFollows | src-tauri/src/voice_decode.rs:121-139 | a step that returns `Ok` has sent two events fewer than the container has packets; on a container whose lengths fit, it never panics on a slice; a step that goes on has read exactly one more packet |
| SessionSpec.MainLoopFollows | src-tauri/src/voice_decode.rs:121-276 | when the main loop returns `Ok`, it has sent two events fewer than the container has packets; on a container whose lengths fit, it never panics on a slice |
| SessionSpec.StepEnds | src-tauri/src/voice_decode.rs:121-268 | a step sends one event exactly when it goes on, carrying the stream position and the file size; a refused send is what panics |
| SessionSpec.StepPcm | src-tauri/src/voice_decode.rs:247-249 | a step only appends to the PCM output, by whole samples |
| SessionSpec.StepFits | src-tauri/src/voice_decode.rs:182-242 | within the SILK limits, a step never overruns `out` |
| SessionSpec.MainLoopOutcomes | src-tauri/src/voice_decode.rs:121-276 | the steps end with `Ok`, `DecodeFailed` or one of the three panics |
| SessionSpec.MainLoopFits | src-tauri/src/voice_decode.rs:186-242 | within the SILK limits, no step overruns `out` |
| SessionSpec.MainLoopChannel | src-tauri/src/voice_decode.rs:265-267 | an open channel never panics; a channel that closes after n events gets at most n, and exactly n when its refusal ends the session |
| SessionSpec.MainLoopOutput | src-tauri/src/voice_decode.rs:247-267 | the events report strictly increasing positions against the file size; the PCM output grows by whole samples |
| SessionSpec.SessionPrimes | src-tauri/src/voice_decode.rs:104-119 | after the header, priming leaves the session in step with the container, or fails as `PrimeReads` states |
| SessionSpec.SessionOutcomes | src-tauri/src/voice_decode.rs:57-102 | the decoder state is released iff the session returns `Ok`; each set-up error occurs iff its call fails; `UnexpectedEof` only for a short header or fewer than two packets; a refused header leaves no output and no event |
| SessionSpec.SessionCountsPackets | src-tauri/src/voice_decode.rs:121-139 | a session that returns `Ok` accepted the header and sent two events fewer than the container has packets |
| SessionSpec.SessionSized | src-tauri/src/voice_decode.rs:110-135 | a container whose lengths fit the window never panics on a packet slice |
| SessionSpec.SessionFits | src-tauri/src/voice_decode.rs:45-214 | within the SILK limits, the session never overruns `out` |
| SessionSpec.SessionChannel | src-tauri/src/voice_decode.rs:265-267 | the send panics only on a channel that closed after exactly the events the session sent |
| SessionSpec.SessionOutput | src-tauri/src/voice_decode.rs:247-267 | the session's events increase strictly within the file size, and its PCM output has even length |
| Session.DecodeSession.constructor | src-tauri/src/voice_decode.rs:42-55 | a fresh session reads the file from offset 0, holds no packet, and starts with the initial control block, no decode call, no decoder state, no PCM and no event |
| Session.DecodeSession.ReadHeader | src-tauri/src/voice_decode.rs:57-75 | the header reads give `CheckHeader` of the file and leave the cursor on the first packet |
| Session.DecodeSession.InitDecoder | src-tauri/src/voice_decode.rs:77-102 | each set-up error occurs iff its call fails after the earlier ones succeeded; the state is allocated iff the size query and the allocation succeeded |
| Session.DecodeSession.FreeDecoder | src-tauri/src/voice_decode.rs:271-273 | the decoder state is released |
| Session.DecodeSession.ReadLength | src-tauri/src/voice_decode.rs:106-109 | the length read is the 16-bit field at the cursor, or none on a short read |
| Session.DecodeSession.ReadPayload | src-tauri/src/voice_decode.rs:134-146 | a complete payload read adds the packet to the window; a short read keeps the packets held |
| Session.DecodeSession.ReadPacket | src-tauri/src/voice_decode.rs:121-146 | the packet read is `NextPacket` at the cursor with the buffer's free room; a stored packet joins the window |
| Session.DecodeSession.Prime | src-tauri/src/voice_decode.rs:104-114 | the priming loop computes `PrimeFrom`: the cursor and window after two packets, or the error or panic |
| Session.DecodeSession.WriteSamples | src-tauri/src/voice_decode.rs:191-198 | the decoder's samples land at the output cursor behind those kept |
| Session.DecodeSession.DecodeCallOnce | src-tauri/src/voice_decode.rs:191-205 | one decode call is appended to the history, and `dec_control` takes the control block of its reply |
| Session.DecodeSession.DecodeFrames | src-tauri/src/voice_decode.rs:186-218 | the frame loop with resync computes `FrameLoop`: outcome, calls, control block and the samples kept in `out` |
| Session.DecodeSession.DecodeConcealed | src-tauri/src/voice_decode.rs:220-241 | the concealment loop computes `ConcealLoop` with the `framesPerPacket` read before it starts |
| Session.DecodeSession.DecodeHead | src-tauri/src/voice_decode.rs:141-242 | the loss decision, redundancy search and decode loop compute `HeadDecode` of the three packets held |
| Session.DecodeSession.Step | src-tauri/src/voice_decode.rs:121-268 | one pass of the main loop computes `SessionStep`: its end, or the next state between steps |
| Session.DecodeSession.Run | src-tauri/src/voice_decode.rs:121-269 | the main loop computes `MainLoop`: outcome, PCM output and events |
| Session.SilkV3Decoder | src-tauri/src/voice_decode.rs:35-277 | the whole session yields exactly the report `Session` gives for the file |

## Left out

- The SILK SDK's signal processing is not modelled. `SKP_Silk_SDK_Decode`, `SKP_Silk_SDK_search_for_LBRR`, `SKP_Silk_SDK_Get_Decoder_Size` and `SKP_Silk_SDK_InitDecoder` are oracle values supplied with the session.
- The SDK reports "more internal frames" as a 0/1 flag. The model reads it as a count of frames still to come that each call lowers (`Sdk.Terminates`), so that the frame loop provably ends. The session's own test (`== 0`) is unchanged.
- A decode call returns its samples as a sequence, so a negative `len` cannot occur.
- The decoder writes into `out` before the session slices past the samples. The model checks the overrun before it stores the samples and panics. Memory written out of bounds by the C code is not modelled.
- The `rand()` else branch (`n_bytes_per_packet[2] = 0`) is not modelled. `SessionSpec.PacketAlwaysKept` proves it can never run. This is likely a latent bug in the program and is kept as the code has it.
- Progress is a real number (`Outcomes.Percent`). f64 rounding is not modelled.
- Timing (`tottime`, `Instant`) and `println!` are left out. They are telemetry only.
- The file name arguments, `File::open` and `File::create` are left out. So are errors from `metadata`, `stream_position` and `write_all`. The input is an in-memory byte sequence, and its length is the file size. The output file is the `pcm` byte sequence.
- `_tot_packets` and `_tot_bytes` are never read and are not modelled.
- The `fecpayload` buffer is the payload the search returns. Its fixed 5120-byte capacity is the SDK's concern.
- The length field is read, and the PCM samples are written, in the machine's byte order; the model assumes little-endian.
- During priming, a negative length turns into a huge `usize` when added to `payload_end`. The model treats both the overflow and the reversed slice range that follows as one panic, `SliceOutOfRange`.
- A progress send fails only on a closed channel, modelled as a channel that accepts a given number of events.
- InputStream.InputFile.ReadExactInto: on a short read, the contents of the target range are left unspecified, since `read_exact` does not specify them.
