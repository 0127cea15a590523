# agon_wav_buffered in Dafny

A model of the core of `wavb`, the Agon Light WAV player: the parser that
validates a RIFF/WAVE file and locates its `data` chunk, the chunked transfer
engine that uploads or streams 8-bit PCM into a VDP audio buffer (averaging
stereo frames down to mono on the way), the encoders of the VDP buffered-command
and audio-command frames it sends, the saturating decimal readers and
`getByte`, and the part of `main` that resolves the buffer id, channel, volume,
chunk size and play duration before it calls the engines.

Every VDU command the player sends is modelled as a byte sequence built by the
same emitters, in the same order, as the C code calls `putch`, `mos_puts` and
`fast_vdu`. The console messages that `printf` writes to the same stream are
not (see "Left out"). The same bytes are also described as a list of
`Vdp.Command` values whose serialization they are. A decoder
(`Vdp.DecodeCommand`/`Vdp.DecodeAll`) is the partner of the encoders. The
audio that reaches the peripheral buffer is `Vdp.AppendedBytes` of the
command list.

Modules, one per part of `src/main.c`:

- `Bytes` (bytes.dfy): fixed-width types, little-endian fields, the RIFF tags, and the `int16_t`/`int24_t` conversions.
- `Vdp` (vdp.dfy): the command emitters, the `Command` list, serialization and its decoder.
- `Numeric` (numeric.dfy): `strtou16`/`strtou8`/`strtou24` and `getByte`.
- `Wav` (wav.dfy): `parse_wav` over the file's bytes. It also has a builder of well-formed files, the parser's partner.
- `Downmix` (downmix.dfy): `convertStereoToMono`.
- `Transfer` (transfer.dfy): `upload_pcm` and `stream_pcm`, with reference command lists and reads that model `fread` faithfully.
- `TransferProps` (transfer_props.dfy): what the engines deliver to the buffer.
- `Playback` (playback.dfy): parameter resolution in `main`, and `main` from the parse on, both as written (`Playback.Run`) and with the read of the data region corrected (`Playback.RunCorrected`).
- `PlaybackProps` (playback_props.dfy): end-to-end properties, and the read-start discrepancy.

Where the code and its written design disagree, the model follows the code:

- `main` never looks at the parse status. A rejected file still goes through the engines, with a data size of 0 (`PlaybackProps.RejectedFileStillClearsAndConverts`).
- After an upload, `--play` uses duration 0 unless `--loop` or `--repeat` is given, not the header's duration (`Playback.UploadPlayDuration`).
- `--repeat` is applied after `--loop`, so it overrides it (`Playback.PlayDuration`).
- The chunk walk starts at byte 36 whatever the `fmt ` chunk declares as its size (`Wav.ExtendedFmtNotFound`).

## Model

| member | source | states |
|---|---|---|
| Vdp.ClearBuffer | src/main.c:46-54 | the six bytes of VDU 23,0,&A0,id;2, with the id least significant byte first |
| Vdp.AddStreamToBuffer | src/main.c:13-31 | an 8-byte header (23,0,&A0, the id, 0, the size) followed by exactly the first `size` bytes of the content; for a non-zero size the `quick` flag changes only the transport, not the bytes |
| Vdp.SampleFromBuffer | src/main.c:33-44 | the nine bytes of VDU 23,0,&85,0,5,2,id;format |
| Vdp.AssignSampleToChannel | src/main.c:56-66 | the eight bytes of VDU 23,0,&85,channel,4,8,sample; |
| Vdp.EnableChannel | src/main.c:68-77 | the five bytes of VDU 23,0,&85,channel,8 |
| Vdp.PlayNote | src/main.c:85-92 | the play frame: channel, command 0, volume, the frequency and the duration as 16-bit little-endian fields |
| Vdp.PlaySample | src/main.c:79-94 | assign, enable, then play at the fixed frequency 100: 23 bytes in that order |
| Vdp.PlaySampleSerializes | src/main.c:79-94 | `play_sample` is exactly the serialization of its three commands |
| Vdp.SerializeConcat | src/main.c:13-94 | serializing a command list distributes over concatenation |
| Vdp.DecodeCommand | src/main.c:19-94 | a recognised frame spans at least one byte and never more than the input |
| Vdp.DecodeEncode | src/main.c:19-94 | every command frame the emitters produce decodes back to that command, whatever bytes follow it |
| Vdp.EncodeDecode | src/main.c:19-94 | conversely, a frame the decoder accepts is byte for byte the encoding of what it decoded, so the encoding is canonical |
| Vdp.DecodeSerialize | src/main.c:19-94 | a serialized command list decodes to exactly that list |
| Vdp.SerializeDecode | src/main.c:19-94 | every byte stream the decoder accepts is the serialization of what it decodes to |
| Vdp.AppendEncoding | src/main.c:19-31 | `add_stream_to_buffer` of the first `size` bytes is the serialization of one append of those bytes |
| Vdp.AppendsConcat | src/main.c:19-31 | the appends of a command list, and the bytes they carry, distribute over concatenation |
| Numeric.SaturatingParse | src/main.c:131-150 | after leading blanks, the value of the longest run of digits, or the maximum as soon as that value would exceed it |
| Numeric.StrToU16 | src/main.c:131-150 | the decimal value of the text, saturated at 65535 |
| Numeric.StrToU8 | src/main.c:152-171 | the decimal value of the text, saturated at 255 |
| Numeric.StrToU24 | src/main.c:173-192 | the decimal value of the text, saturated at 16777215 |
| Numeric.RunExceeds | src/main.c:142-144 | the overflow guard fires exactly when the whole digit run denotes more than the maximum |
| Numeric.DigitsValueGrows | src/main.c:140-147 | a longer run of digits never denotes a smaller number |
| Numeric.RenderRoundTrip | src/main.c:131-192 | reading back a rendered number, with any leading blanks and any non-digit after it, gives the number |
| Numeric.LargeInputSaturates | src/main.c:131-150 | "70000" reads as 65535, and "  \t42x" reads as 42 |
| Numeric.GetByte | src/main.c:96-112 | -1 exactly for a zero mask; otherwise the index of a non-zero byte below which every byte is zero |
| Numeric.GetByteOfCompose | src/main.c:96-112 | on a word built from four bytes, the position of the first non-zero byte, or -1 if all are zero |
| Numeric.ComposeBytes | src/main.c:96-112 | the shifts and masks `getByte` tests read back the bytes a word was built from |
| Wav.FixedPart | src/main.c:221-227 | the 36 bytes read into the zeroed struct: the file's own bytes, then zeros past the end of a short file |
| Wav.FindData | src/main.c:250-266 | a `data` chunk found from position p starts at least 8 bytes after p and inside the file; fewer than 8 bytes left means not found (skipping chunks by their unsigned size, which is what the code does for sizes below 2^31) |
| Wav.FindDataFound | src/main.c:257-261 | the reported offset sits just past a `data` tag and the 32-bit size declared after it |
| Wav.ParseWav | src/main.c:220-276 | the earliest failing check decides the stored code (1, 2, 4, then 3), each as an if-and-only-if; a rejected file has offset, size and duration 0; an accepted one has exactly the offset and size of the first `data` chunk the walk finds, just past its header, and duration size/channels/(rate/1000) (chunks skipped by their unsigned size, as the code does for sizes below 2^31) |
| Wav.ReadHead | src/main.c:204-227 | the packed 36-byte prefix of a built file reads back as the fields it was built from |
| Wav.ChunksLaidOut | src/main.c:250-266 | the bytes of a run of non-`data` chunks put each header where the walk will look for it |
| Wav.WalkFindsData | src/main.c:250-266 | past such a run, the walk stops at the `data` header with its declared size |
| Wav.FindDataAt | src/main.c:257-261 | a `data` header at p ends the walk there |
| Wav.FindDataSkips | src/main.c:264-265 | a header other than `data` sends the walk on to the next chunk |
| Wav.ParseWavFile | src/main.c:220-276 | every well-formed PCM file, mono or stereo, with any run of extra chunks before `data` parses to Ok with the right offset, size, duration and format fields, whatever the declared `fmt ` size |
| Wav.ExtendedFmtNotFound | src/main.c:246-271 | an 18-byte `fmt ` chunk misleads the walk, which then reports no `data` chunk |
| Wav.NextChunkPosAsWritten | src/main.c:265 | from just past a chunk header at p+8, a size below 2^31 skips forward by the size; a size from 2^31 up to 2^32-(p+8) is a negative target, the seek fails and the walk stays at p+8; only larger sizes seek behind p+8 |
| Wav.Long | src/main.c:265 | the `long` offset handed to `fseek` is the 32-bit signed reading of the chunk size |
| Wav.SeekAgreesBelowSignBit | src/main.c:265 | for sizes below 2^31 the seek as written and the intended skip agree |
| Wav.SeekWrapRevisitsChunk | src/main.c:250-266 | a chunk declaring size 0xFFFFFFF8 sends the walk as written back to its own header, while the intended skip ends the walk with no `data` chunk |
| Wav.WrappedJunkChunk | src/main.c:250-266 | such a chunk can sit in an otherwise well-formed file, right after the header |
| Downmix.Average | src/main.c:286 | the floored mean of the two samples, which lies between them |
| Downmix.ConvertStereoToMono | src/main.c:278-290 | one output sample per frame, each the floored mean of that frame's left and right bytes |
| Downmix.DownmixBetween | src/main.c:278-290 | each output sample lies between the two samples it was made from |
| Downmix.DownmixOfInterleave | src/main.c:278-290 | downmixing a stream whose two channels carry the same signal gives that signal back |
| Downmix.DownmixConcat | src/main.c:278-290 | downmixing whole frames distributes over concatenation |
| Downmix.DownmixPrefix | src/main.c:278-290 | only the first 2*frames bytes are read |
| Downmix.DownmixExample | src/main.c:278-290 | frames (10,20) and (0,255) give 15 and 127 |
| Transfer.EffectiveChunkSize | src/main.c:296 | a chunk size of 0 selects 8192; any other is kept |
| Transfer.Fread | src/main.c:319 | a read never changes the working buffer's length |
| Transfer.FreadDelivers | src/main.c:319 | a read delivers no more than asked or than is left, those bytes from the file position, and leaves the rest of the buffer as it was |
| Transfer.EngineFor | src/main.c:370-387 | the engine has a positive chunk size and the header's channel count and bytes per sample |
| Transfer.ChunkLen | src/main.c:315-317 | the chunk is the chunk size, or what is left if that is less |
| Transfer.ReadSize | src/main.c:319 | the read asks for the whole chunk with 8-bit samples and for nothing when the width is below 8 bits or the chunk is empty |
| Transfer.ReadSizeIsProduct | src/main.c:319 | that is `chunk * (bitsPerSample / 8)` for every width the buffer holds |
| Transfer.SendChunk | src/main.c:321-332 | one chunk on the wire is exactly the serialization of its command: the chunk itself for mono, its downmix for stereo, nothing otherwise |
| Transfer.SendChunks | src/main.c:340-364 | the chunk loop's bytes are the serialization of the reference loop |
| Transfer.SerializeStream | src/main.c:313-338 | the streaming order on the wire: clear, first chunk, convert, play, rest |
| Transfer.StreamWire | src/main.c:313-364 | a stream's bytes, part by part |
| Transfer.UploadPcm | src/main.c:370-420 | a failed allocation sends nothing; otherwise the bytes are the serialization of clear, every chunk, convert |
| Transfer.StreamPcm | src/main.c:292-368 | a failed allocation sends nothing; otherwise the bytes are the serialization of clear, the first chunk, convert, play, then the remaining chunks |
| Transfer.StreamChunks | src/main.c:310-364 | the same, once the working buffer is allocated |
| TransferProps.ChunkIsOneAppend | src/main.c:321-332 | a chunk is one append to the engine's buffer for one or two channels, and nothing for other counts |
| TransferProps.LoopOnlyAppends | src/main.c:391-415 | the chunk loop only appends, always to the engine's buffer; it sends nothing for other channel counts or when nothing remains |
| TransferProps.LoopCount | src/main.c:391-415 | the loop sends the data size divided by the chunk size, rounded up, appends |
| TransferProps.LoopStepAppended | src/main.c:391-415 | one turn of the loop appends the chunk, then whatever the rest of the loop appends |
| TransferProps.ChunkAppended | src/main.c:321-332 | a chunk appends its bytes for mono and their downmix for stereo |
| TransferProps.FullRead | src/main.c:319 | while data lasts, each read fills the chunk from the file position and moves past it |
| TransferProps.MonoLoopDelivers | src/main.c:391-415 | an 8-bit mono loop over data that is present delivers exactly that data, whatever the chunk size |
| TransferProps.StereoLoopDownmixes | src/main.c:391-415 | with an even chunk size, an 8-bit stereo loop delivers the downmix of the whole data |
| TransferProps.MonoReadStep | src/main.c:391-415 | one turn of a mono loop reads what is left of the chunk's worth of data and appends the whole chunk as the buffer then stands |
| TransferProps.MonoLoopPrefix | src/main.c:391-415 | when the file ends before the data size is used up, a mono loop's appended bytes still begin with all the data that is there, up to the data size |
| TransferProps.MonoLoopLength | src/main.c:391-415 | whatever the file holds, a mono loop appends exactly as many bytes as the data size (short reads resend stale buffer bytes) |
| TransferProps.StereoLoopLength | src/main.c:391-415 | whatever the file holds, each turn of a stereo loop appends half its chunk, rounded down |
| TransferProps.StereoFramesClosed | src/main.c:391-415 | in total, half the chunk size per whole chunk plus half the last partial chunk, each rounded down: an odd chunk size loses a byte per whole chunk |
| TransferProps.StereoFramesEven | src/main.c:391-415 | with an even chunk size, a stereo loop appends half the data size |
| TransferProps.DownmixJoin | src/main.c:278-290 | downmixing a stretch of data is downmixing its first whole frames and then the rest |
| TransferProps.OddChunkMisalignsStereo | src/main.c:342-350 | with an odd chunk size a stereo chunk ends mid-frame, so later chunks pair the wrong bytes |
| TransferProps.TruncatedReadSendsStaleBytes | src/main.c:346-348 | a file cut short still appends a full chunk, whose tail is stale buffer contents |
| TransferProps.UploadNothing | src/main.c:386-417 | a zero data size, or one whose low 24 bits read as negative, uploads just a clear and a convert |
| TransferProps.UploadSizeWraps | src/main.c:386 | the size passes through `int24_t`: 8 MiB uploads nothing, and 16 MiB plus 5 counts as 5 |
| TransferProps.UploadShape | src/main.c:389-417 | an upload is a clear, then appends to that buffer only, then one convert |
| TransferProps.StreamShape | src/main.c:313-364 | a stream is a clear, one append, a convert, the three play commands, then appends to that buffer only |
| TransferProps.NoAppends | src/main.c:33-94 | commands other than appends add nothing to the buffer |
| TransferProps.Silent | src/main.c:33-94 | a single command other than an append adds nothing to the buffer |
| TransferProps.AppendsAround | src/main.c:389-417 | commands that append nothing, before and after a stream, leave its appends unchanged |
| TransferProps.PlayHasNoAppends | src/main.c:79-94 | the play commands carry no audio |
| TransferProps.StreamOrderAppends | src/main.c:313-364 | in the streaming order only the chunks contribute appends |
| TransferProps.StreamAppends | src/main.c:313-364 | a stream's appends are its first chunk's followed by the loop's |
| TransferProps.UploadAppends | src/main.c:389-417 | an upload's appends are the loop's |
| TransferProps.StreamDeliversAsUpload | src/main.c:292-420 | streaming and uploading deliver the same bytes to the buffer, and the same appends whenever there is data |
| Playback.OrElse | src/main.c:585-611 | an option given is used and one not given takes its default |
| Playback.PlayDuration | src/main.c:580-582 | `--repeat n` gives n times the header's duration, cut to 16 bits; otherwise `--loop` gives the all-ones sentinel; otherwise the starting value is kept |
| Playback.StreamDuration | src/main.c:578-582 | when streaming, the duration starts from the header's, `--loop` puts 0xFFFF on the wire, and `--repeat n` puts n times the header's duration, cut to 16 bits |
| Playback.UploadPlayDuration | src/main.c:602-605 | after an upload, the duration starts from 0 (line 571), `--loop` gives 0xFFFF, and `--repeat` gives the same as when streaming |
| Playback.TransferSource | src/main.c:311 | the corrected read: for an accepted file, the engines read from `dataOffset`, the start of the data region |
| Playback.SourceAsWritten | src/main.c:311 | the engines as written read the file from twice the data offset, or nothing when that lies past the end; a rejected file (offset 0) is read from the start |
| Playback.RunWith | src/main.c:571-611 | stream, or upload and optionally play, with the resolved buffer, channel, volume, chunk size and duration; the bytes are those of the reference command list |
| Playback.Run | src/main.c:563-611 | `main` from the parse on, as written: the bytes are those of the reference command list with the engines reading from `2 * dataOffset` |
| Playback.RunCorrected | src/main.c:563-611 | `main` from the parse on with the corrected read: the bytes are those of the reference command list with the engines reading the data region |
| PlaybackProps.LoopSentinelOnWire | src/main.c:578-611 | `--loop` without `--repeat` puts the duration bytes 0xFF, 0xFF at the end of the play frame, in both modes |
| PlaybackProps.CommandsAppend | src/main.c:578-611 | the buffer receives exactly the audio of the chunk loop, and nothing when allocation fails; playing adds none |
| PlaybackProps.EmptyDataClearsAndConverts | src/main.c:292-420 | with a data size of 0, streamed or uploaded, the commands still start with a clear and create a sample, and carry no audio |
| PlaybackProps.RejectedFileStillClearsAndConverts | src/main.c:563-611 | a rejected file still clears and converts the buffer, with no audio |
| PlaybackProps.EngineOfWavFile | src/main.c:563-611 | with the corrected read, an accepted 8-bit file's engine reads exactly the file's data region |
| PlaybackProps.MonoFileDelivers | src/main.c:563-611 | with the corrected read (`Playback.RunCorrected`), a well-formed 8-bit mono file, streamed or uploaded, fills the buffer with exactly its data bytes |
| PlaybackProps.StereoFileDelivers | src/main.c:563-611 | with the corrected read, a well-formed 8-bit stereo file, with an even chunk size, fills the buffer with the downmix of its data |
| PlaybackProps.MonoCommandsSend | src/main.c:292-420 | for an 8-bit mono header, the buffer receives exactly the data size in bytes, beginning with as much of the input as there is |
| PlaybackProps.MonoRunSends | src/main.c:292-420 | `main` as written, on any parsed 8-bit mono file, sends exactly the data size in bytes, and as many of them as the file holds are the bytes that start at twice the data offset |
| PlaybackProps.AsWrittenSkipsAudio | src/main.c:311 | for every well-formed file, the corrected read starts at the audio itself, while the engines as written (here and at line 387) start `dataOffset` bytes into the audio when at least that many audio bytes follow the `data` header, and read nothing otherwise |
| PlaybackProps.AsWrittenUploadSendsStaleBytes | src/main.c:387 | for a 48-byte file, the corrected read delivers the 4 audio bytes, while the read as written starts past the end and delivers stale bytes |

## Left out

- Argument parsing (`parse_args`, src/main.c:464-503) is not modelled. `Playback.Options` holds what it recognised. Its `atoi` result is written as a `uint16_t` even into the 8-bit `channel`, `volume` and `repeat` fields, spilling into the next field; that is not modelled.
- The usage text, the `.wav` extension sniffing, the missing-file and no-file messages, `to_lowercase` and `print_bin`: these are console I/O, not part of the transfer.
- `vdp_vdu_init`, `vdp_key_init`, the timing with floating point and the `--info` printing: these are platform I/O and floating point.
- `putch`, `mos_puts` and `fast_vdu` are treated as appending bytes to the wire, in order. The `quick` flag picks between the last two and does not change the bytes when the size is non-zero.
- Vdp.AddStreamToBuffer: for a size of 0 the model sends the 8-byte header and no payload. As written, `mos_puts(content, 0, 0)` is in delimiter mode and sends the content up to a NUL byte, while `fast_vdu` sends nothing. Size-0 appends occur for the first streamed chunk when the data size is 0 (so for every rejected one- or two-channel file with `--stream`) and for the downmix of a 1-byte stereo chunk.
- The console messages that `printf` writes to the VDU stream are not modelled: the missing `data` chunk (src/main.c:269), a failed working-buffer allocation (src/main.c:305 and 381) and a failed downmix allocation (src/main.c:331, 358 and 409). Where the model says an engine "sends nothing", it means no VDU command.
- The file is a byte sequence. `fseek`/`ftell` are positions in it, and `fread` is `Transfer.Fread`.
- A failed allocation of the downmix buffer (which skips that chunk's append) is not modelled: the downmix always succeeds. A failed working-buffer allocation is modelled (`allocOk`).
- `malloc(0)` for a downmix of zero frames is not modelled: it is treated as an empty buffer.
- Transfer.ReadsFit: with more than 8 bits per sample the C code reads `chunk * (bitsPerSample / 8)` bytes into a `chunk_size` buffer, which overflows it only when that product exceeds `chunk_size` (as it does for every full chunk). The requires excludes every read of a wider sample, including the short final chunks that would fit, so the model says nothing about 16-bit files with data.
- Transfer.StreamPcm: requires a data size that is not negative once cut to `int24_t`. For a negative one, the first chunk becomes a huge `uint24_t` read into the working buffer.
- PlaybackProps.MonoRunSends: requires a data size below 2^23. A larger size is first cut to `int24_t` (`TransferProps.UploadSizeWraps`), so the count of bytes sent is no longer the data size.
- Wav.ParseDefined: the duration divides by `sampleRate / 1000`, so the parse requires a sample rate of at least 1000 once the format checks pass.
- The `samples` field of `xHeader` is never written by the source, so it is not modelled.
- Wav.ParseWav: chunks are skipped by their unsigned declared size. As written, `fseek` takes the size as a 32-bit signed `long`, from position p+8 just past the chunk header, so a size of 2^31 or more is the offset size - 2^32 (`Wav.NextChunkPosAsWritten`). For sizes from 2^31 up to 2^32-(p+8) the target is negative and the seek fails (`EINVAL` under POSIX; the Agon C library is not part of this model), so the position stays at p+8 and the walk reads the chunk's body as the next header. Only sizes of 2^32-(p+8) or more seek backwards, and 0xFFFFFFF8 returns to the same header, so the walk never ends (see "Findings"). For all such sizes the model reports no `data` chunk or walks on forward, which is the intended behaviour rather than the code's. The same holds for Wav.FindData.
- Wav.FindData: reads past the end are modelled as the end of the walk. `feof` after a seek beyond the end behaves the same, because the next read comes up short.

## Findings

| source | as written | input that shows it | evidently intended | confidence | as-written member | corrected member |
|---|---|---|---|---|---|---|
| src/main.c:311 | after `parse_wav` the file is already at `dataOffset`, and the engines seek a further `dataOffset` bytes forward (`SEEK_CUR`), so reads start at twice the offset | a 48-byte mono file with 4 audio bytes at offset 44: the read starts at byte 88 and the upload sends 4 stale bytes | read from `dataOffset` (a `SEEK_SET` seek) | not executed | PlaybackProps.AsWrittenUploadSendsStaleBytes | PlaybackProps.MonoFileDelivers |
| src/main.c:265 | the chunk size is passed to `fseek` as a 32-bit `long`: from p+8 a size of 2^31 or more is a negative offset, which fails for sizes below 2^32-(p+8) and seeks backwards from there on | a `JUNK` chunk declaring 0xFFFFFFF8 right after the header: the seek lands on the same header again and the walk never ends | skip forward by the unsigned size | not executed | Wav.SeekWrapRevisitsChunk | Wav.FindData |
