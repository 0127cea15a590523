/** The part of `main` that follows the parse: it resolves the buffer id,
    channel, volume, chunk size and play duration from the options given on
    the command line, then either streams the file (`--stream`) or uploads
    it and, with `--play`, plays it.  The header's status code is never
    consulted: a rejected file still goes through the engines, with a data
    size of zero.

    Reading the options (`parse_args`) is not part of this model: `Options`
    holds what it recognised, `None` for an option that was not given. */
module Playback {
  import opened Bytes
  import opened Vdp
  import opened Wav
  import opened Transfer

  datatype Options = Options(
    buffer: Option<u16>, channel: Option<byte>, volume: Option<byte>,
    repeat: Option<byte>, chunk: Option<u16>,
    play: bool, loop: bool, stream: bool, quick: bool)

  function OrElse<T>(o: Option<T>, default: T): (v: T)
    ensures o.Some? ==> v == o.value
    ensures o.None? ==> v == default
  {
    match o
    case Some(x) => x
    case None => default
  }

  /** Buffer id and channel default to 0, volume to 100, the chunk size to
      `DEFAULT_CHUNK_SIZE` (an explicit 0 is defaulted again by the engines). */
  function SampleId(o: Options): u16 { OrElse(o.buffer, 0) }
  function Channel(o: Options): byte { OrElse(o.channel, 0) }
  function Volume(o: Options): byte { OrElse(o.volume, 100) }
  function ChunkOption(o: Options): u16 { OrElse(o.chunk, DEFAULT_CHUNK_SIZE) }

  /** The `int16_t duration` handed to the play command, from its starting
      value `start`: `--loop` replaces it by -1, and `--repeat n`, applied
      after, replaces either by `n` times the header's duration.  The product
      is computed in `int` and only its low 16 bits survive the store, so
      the ensures speak of the 16 bits the peripheral receives. */
  function PlayDuration(o: Options, start: int16, natural: u16): (d: int16)
    ensures o.repeat.Some? ==> U16Of(d) == (o.repeat.value * natural) % 0x1_0000
    ensures o.repeat.None? && o.loop ==> U16Of(d) == 0xFFFF
    ensures o.repeat.None? && !o.loop ==> d == start
  {
    var afterLoop: int16 := if o.loop then -1 else start;
    if o.repeat.Some? then
      var product := o.repeat.value * natural;
      U16OfInt16(product);
      Int16(product)
    else afterLoop
  }

  /** The streaming duration starts from the header's, which then reaches
      the wire unchanged. */
  function StreamDuration(o: Options, h: WavHeader): (d: u16)
    ensures o.repeat.None? && !o.loop ==> d == h.extra.duration
    ensures o.repeat.None? && o.loop ==> d == 0xFFFF
    ensures o.repeat.Some? ==> d == (o.repeat.value * h.extra.duration) % 0x1_0000
  {
    U16OfInt16(h.extra.duration);
    U16Of(PlayDuration(o, Int16(h.extra.duration), h.extra.duration))
  }

  /** After an upload the duration starts from 0, not from the header's. */
  function UploadPlayDuration(o: Options, h: WavHeader): (d: u16)
    ensures o.repeat.None? && !o.loop ==> d == 0
    ensures o.repeat.None? && o.loop ==> d == 0xFFFF
    ensures o.repeat.Some? ==> d == StreamDuration(o, h)
  {
    U16Of(PlayDuration(o, 0, h.extra.duration))
  }

  /** Where the engines are evidently meant to read the sample data: the
      file from the start of the data region.  `main` as written reads
      elsewhere (`SourceAsWritten`); this is the corrected read, used by
      `RunCorrected`. */
  function TransferSource(file: seq<byte>): (src: seq<byte>)
    requires ParseDefined(file)
    ensures ParseWav(file).extra.status == Ok ==>
              src == file[ParseWav(file).extra.dataOffset ..]
  {
    var off := ParseWav(file).extra.dataOffset;
    if off <= |file| then file[off..] else []
  }

  /** What the engines as written read: for an accepted file `parse_wav`
      leaves the file positioned just past the `data` header, at
      `dataOffset`, and the engines then seek a further `dataOffset` bytes
      forward from there.  A rejected file has a data size of 0, so nothing
      is read from it, wherever the walk left the position. */
  function SourceAsWritten(file: seq<byte>): (r: seq<byte>)
    requires ParseDefined(file)
    ensures var off := ParseWav(file).extra.dataOffset;
      && (2 * off <= |file| ==> r == file[2 * off ..])
      && (2 * off > |file| ==> r == [])
    ensures ParseWav(file).extra.status != Ok ==> r == file
  {
    var off := ParseWav(file).extra.dataOffset;
    file[Min(off + off, |file|) ..]
  }

  /** The conditions under which the C code stays defined once the header
      is parsed: reads fit the working buffer, and a streamed data size is
      not negative once cut to `int24_t`. */
  predicate RunnableWith(h: WavHeader, o: Options)
  {
    && (h.bitsPerSample / 8 <= 1 || Int24(h.extra.dataSize) <= 0)
    && (o.stream ==> Int24(h.extra.dataSize) >= 0)
  }

  /** ... and, before that, the parse does not divide by zero. */
  predicate Runnable(file: seq<byte>, o: Options)
  {
    ParseDefined(file) && RunnableWith(ParseWav(file), o)
  }

  /** The commands `main` causes for a parsed header and the bytes the
      engines read, as a reference for `RunWith`. */
  function CommandsFor(h: WavHeader, src: seq<byte>, o: Options, scratch: seq<byte>, allocOk: bool): seq<Command>
    requires RunnableWith(h, o) && |scratch| == EffectiveChunkSize(ChunkOption(o))
  {
    var e := EngineFor(src, h, SampleId(o), ChunkOption(o));
    if o.stream then
      if allocOk then StreamCommands(e, h.extra.dataSize, scratch, Channel(o), Volume(o), StreamDuration(o, h))
      else []
    else
      (if allocOk then UploadCommands(e, h.extra.dataSize, scratch) else [])
      + (if o.play then PlayCommands(SampleId(o), Channel(o), Volume(o), UploadPlayDuration(o, h)) else [])
  }

  /** The commands `main` as written causes for a file. */
  function RunCommands(file: seq<byte>, o: Options, scratch: seq<byte>, allocOk: bool): seq<Command>
    requires Runnable(file, o) && |scratch| == EffectiveChunkSize(ChunkOption(o))
  {
    CommandsFor(ParseWav(file), SourceAsWritten(file), o, scratch, allocOk)
  }

  /** The commands of `main` with the corrected read of the data region. */
  function CorrectedCommands(file: seq<byte>, o: Options, scratch: seq<byte>, allocOk: bool): seq<Command>
    requires Runnable(file, o) && |scratch| == EffectiveChunkSize(ChunkOption(o))
  {
    CommandsFor(ParseWav(file), TransferSource(file), o, scratch, allocOk)
  }

  /** `main` after the parse: stream, or upload and optionally play, with the
      resolved parameters.  `scratch` is the working buffer's initial
      contents and `allocOk` whether its allocation succeeded. */
  method RunWith(h: WavHeader, src: seq<byte>, o: Options, scratch: seq<byte>, allocOk: bool)
    returns (wire: seq<byte>)
    requires RunnableWith(h, o) && |scratch| == EffectiveChunkSize(ChunkOption(o))
    ensures wire == Serialize(CommandsFor(h, src, o, scratch, allocOk))
  {
    if o.stream {
      wire := StreamPcm(src, h, SampleId(o), ChunkOption(o), Channel(o), Volume(o),
                        StreamDuration(o, h), o.quick, scratch, allocOk);
      return;
    }
    wire := UploadPcm(src, h, SampleId(o), ChunkOption(o), o.quick, scratch, allocOk);
    var e := EngineFor(src, h, SampleId(o), ChunkOption(o));
    var upload := if allocOk then UploadCommands(e, h.extra.dataSize, scratch) else [];
    if o.play {
      var play := PlayCommands(SampleId(o), Channel(o), Volume(o), UploadPlayDuration(o, h));
      PlaySampleSerializes(SampleId(o), Channel(o), Volume(o), UploadPlayDuration(o, h));
      SerializeConcat(upload, play);
      wire := wire + PlaySample(SampleId(o), Channel(o), Volume(o), UploadPlayDuration(o, h));
    } else {
      assert upload + [] == upload;
    }
  }

  /** `main` from the parse on, as written: the engines read from
      `2 * dataOffset`. */
  method Run(file: seq<byte>, o: Options, scratch: seq<byte>, allocOk: bool) returns (wire: seq<byte>)
    requires Runnable(file, o) && |scratch| == EffectiveChunkSize(ChunkOption(o))
    ensures wire == Serialize(RunCommands(file, o, scratch, allocOk))
  {
    var h := ParseWav(file);
    wire := RunWith(h, SourceAsWritten(file), o, scratch, allocOk);
  }

  /** `main` from the parse on with the corrected read: the engines read
      from the start of the data region. */
  method RunCorrected(file: seq<byte>, o: Options, scratch: seq<byte>, allocOk: bool) returns (wire: seq<byte>)
    requires Runnable(file, o) && |scratch| == EffectiveChunkSize(ChunkOption(o))
    ensures wire == Serialize(CorrectedCommands(file, o, scratch, allocOk))
  {
    var h := ParseWav(file);
    wire := RunWith(h, TransferSource(file), o, scratch, allocOk);
  }
}
