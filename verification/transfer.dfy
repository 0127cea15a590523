/** The two transfer engines, `upload_pcm` and `stream_pcm`.  Both read the
    sample data in chunks of at most `chunk_size` bytes into one working
    buffer, downmix stereo chunks, and append each chunk to a peripheral
    buffer; they differ in where the sample conversion and the play command
    fall in the command stream.

    The input is an abstract byte sequence `src`: whatever the file yields
    from the position the engine seeks to.  The working buffer's initial
    contents (`malloc` does not clear memory) are the parameter `scratch`;
    a short read overwrites only the bytes it delivers, so stale bytes stay
    in the buffer exactly as in the C code. */
module Transfer {
  import opened Bytes
  import opened Vdp
  import opened Downmix
  import Wav

  const DEFAULT_CHUNK_SIZE: u16 := 8192

  /** A `chunk_size` of 0 selects the default. */
  function EffectiveChunkSize(chunkSize: u16): (cs: u16)
    ensures cs > 0
    ensures chunkSize != 0 ==> cs == chunkSize
    ensures chunkSize == 0 ==> cs == DEFAULT_CHUNK_SIZE
  {
    if chunkSize == 0 then DEFAULT_CHUNK_SIZE else chunkSize
  }

  /** The working buffer and the file position between reads. */
  datatype Cursor = Cursor(buf: seq<byte>, pos: nat)

  /** `fread(buf, 1, n, file)`: the bytes still available overwrite the head
      of the buffer and the position advances by what was read. */
  function Fread(c: Cursor, src: seq<byte>, n: nat): (r: Cursor)
    requires n <= |c.buf|
    ensures |r.buf| == |c.buf|
  {
    if c.pos >= |src| then c
    else
      var got := Min(n, |src| - c.pos);
      Cursor(src[c.pos .. c.pos + got] + c.buf[got..], c.pos + got)
  }

  /** What a read delivers: never more than asked or than is left, the bytes
      at the file position, and nothing beyond them touched. */
  lemma FreadDelivers(c: Cursor, src: seq<byte>, n: nat)
    requires n <= |c.buf|
    ensures var r := Fread(c, src, n);
      var got := r.pos - c.pos;
      && 0 <= got <= n
      && (c.pos + n <= |src| ==> got == n)
      && (c.pos + n > |src| ==> c.pos + got == Max(c.pos, |src|))
      && (got > 0 ==> r.buf[..got] == src[c.pos .. c.pos + got])
      && r.buf[got..] == c.buf[got..]
  {
  }

  /** The parameters a transfer runs with: the input, the target buffer id,
      the header's channel count and bytes per sample, and the chunk size
      after defaulting. */
  datatype Engine = Engine(src: seq<byte>, id: u16, channels: u16, bytesPerSample: nat, chunkSize: u16)

  function EngineFor(src: seq<byte>, h: Wav.WavHeader, id: u16, chunkSize: u16): (e: Engine)
    ensures e.chunkSize > 0
    ensures e.channels == h.numChannels && e.bytesPerSample == h.bitsPerSample / 8
  {
    Engine(src, id, h.numChannels, h.bitsPerSample / 8, EffectiveChunkSize(chunkSize))
  }

  /** The size of the next chunk: the chunk size, or what is left if less. */
  function ChunkLen(remaining: int, cs: u16): (c: u16)
    requires remaining >= 0
    ensures c <= cs && c <= remaining
    ensures c == cs || c == remaining
  {
    if remaining > cs then cs else remaining
  }

  /** What one chunk contributes: the chunk as read for mono, its downmix of
      `chunk / 2` frames for stereo, and nothing for any other channel count. */
  function ChunkCommands(id: u16, channels: u16, buf: seq<byte>, chunk: u16): (r: seq<Command>)
    requires chunk <= |buf|
  {
    if channels == 1 then [Append(id, buf[..chunk])]
    else if channels == 2 then [Append(id, ConvertStereoToMono(buf, chunk / 2))]
    else []
  }

  /** Reads stay inside the working buffer: with more than 8 bits per sample
      the C code reads `chunk * (bitsPerSample / 8)` bytes into a buffer of
      `chunk_size`, which overflows it unless nothing is left to read. */
  predicate ReadsFit(e: Engine, remaining: int)
  {
    e.bytesPerSample <= 1 || remaining <= 0
  }

  /** `chunk * (bitsPerSample / 8)` for the sample widths the buffer holds
      (the product written as a case split, which is what it amounts to). */
  function ReadSize(e: Engine, chunk: u16): (n: nat)
    requires e.bytesPerSample <= 1 || chunk == 0
    ensures e.bytesPerSample == 1 ==> n == chunk
    ensures e.bytesPerSample != 1 ==> n == 0
  {
    if chunk == 0 || e.bytesPerSample == 0 then 0 else chunk
  }

  /** The case split is the product `chunk * (bitsPerSample / 8)`. */
  lemma ReadSizeIsProduct(e: Engine, chunk: u16)
    requires e.bytesPerSample <= 1 || chunk == 0
    ensures ReadSize(e, chunk) == chunk * e.bytesPerSample
  {
  }

  /** The read at the head of each turn of the chunk loop. */
  function NextRead(e: Engine, remaining: int, c: Cursor): (r: Cursor)
    requires remaining >= 0 && e.chunkSize > 0 && |c.buf| == e.chunkSize && ReadsFit(e, remaining)
    ensures |r.buf| == e.chunkSize
  {
    Fread(c, e.src, ReadSize(e, ChunkLen(remaining, e.chunkSize)))
  }

  /** The chunk loop, `while (remaining_data > 0)`: the commands it sends
      from a given remaining count, buffer contents and input position. */
  function TransferLoop(e: Engine, remaining: int, c: Cursor): seq<Command>
    requires e.chunkSize > 0 && |c.buf| == e.chunkSize && ReadsFit(e, remaining)
    decreases Max(remaining, 0)
  {
    if remaining <= 0 then []
    else
      var chunk := ChunkLen(remaining, e.chunkSize);
      var n := NextRead(e, remaining, c);
      ChunkCommands(e.id, e.channels, n.buf, chunk) + TransferLoop(e, remaining - chunk, n)
  }

  /** `upload_pcm` once its working buffer is allocated: clear, every chunk,
      convert.  The remaining count is the data size cut to `int24_t`. */
  function UploadCommands(e: Engine, dataSize: u32, scratch: seq<byte>): seq<Command>
    requires e.chunkSize > 0 && |scratch| == e.chunkSize && ReadsFit(e, Int24(dataSize))
  {
    [Clear(e.id)] + TransferLoop(e, Int24(dataSize), Cursor(scratch, 0)) + [MakeSample(e.id, 1)]
  }

  /** `stream_pcm` once its working buffer is allocated: clear, the first
      chunk (sent even when it is empty), convert, play, then the chunk loop
      on what is left. */
  function StreamCommands(e: Engine, dataSize: u32, scratch: seq<byte>,
                          channel: byte, volume: byte, duration: u16): seq<Command>
    requires e.chunkSize > 0 && |scratch| == e.chunkSize && ReadsFit(e, Int24(dataSize))
    requires Int24(dataSize) >= 0
  {
    var remaining := Int24(dataSize);
    var chunk := ChunkLen(remaining, e.chunkSize);
    var n := NextRead(e, remaining, Cursor(scratch, 0));
    StreamOrder(e.id, ChunkCommands(e.id, e.channels, n.buf, chunk),
                PlayCommands(e.id, channel, volume, duration),
                TransferLoop(e, remaining - chunk, n))
  }

  /** The order in which `stream_pcm` issues its commands. */
  function StreamOrder(id: u16, first: seq<Command>, play: seq<Command>, rest: seq<Command>)
    : seq<Command>
  {
    [Clear(id)] + first + [MakeSample(id, 1)] + play + rest
  }

  // ---- the engines as they emit bytes ----

  /** One chunk on the wire: `add_stream_to_buffer` of the chunk for mono,
      of its `chunk / 2`-frame downmix for stereo, nothing otherwise.  The
      bytes are exactly the serialization of the chunk's commands. */
  method SendChunk(e: Engine, buf: seq<byte>, chunk: u16, quick: bool) returns (out: seq<byte>)
    requires chunk <= |buf|
    ensures out == Serialize(ChunkCommands(e.id, e.channels, buf, chunk))
  {
    if e.channels == 1 {
      out := AddStreamToBuffer(e.id, buf, chunk, quick);
      AppendEncoding(e.id, buf, chunk, quick);
    } else if e.channels == 2 {
      var stereoSamples: u16 := chunk / 2;
      var mono := ConvertStereoToMono(buf, stereoSamples);
      out := AddStreamToBuffer(e.id, mono, stereoSamples, quick);
      AppendEncoding(e.id, mono, stereoSamples, quick);
      assert mono[..stereoSamples] == mono;
    } else {
      out := [];
    }
  }

  /** The chunk loop shared by both engines, one chunk per turn. */
  method SendChunks(e: Engine, remaining: int, c: Cursor, quick: bool) returns (wire: seq<byte>)
    requires e.chunkSize > 0 && |c.buf| == e.chunkSize && ReadsFit(e, remaining)
    ensures wire == Serialize(TransferLoop(e, remaining, c))
    decreases Max(remaining, 0)
  {
    if remaining <= 0 {
      return [];
    }
    var chunk := ChunkLen(remaining, e.chunkSize);
    var n := NextRead(e, remaining, c);
    var out := SendChunk(e, n.buf, chunk, quick);
    var rest := SendChunks(e, remaining - chunk, n, quick);
    wire := out + rest;
    SerializeConcat(ChunkCommands(e.id, e.channels, n.buf, chunk), TransferLoop(e, remaining - chunk, n));
  }

  /** Clearing, a command stream and a conversion, on the wire. */
  lemma SerializeSandwich(id: u16, middle: seq<Command>)
    ensures ClearBuffer(id) + Serialize(middle) + SampleFromBuffer(id, 1)
         == Serialize([Clear(id)] + middle + [MakeSample(id, 1)])
  {
    SerializeConcat([Clear(id)] + middle, [MakeSample(id, 1)]);
    SerializeConcat([Clear(id)], middle);
    assert Serialize([Clear(id)]) == ClearBuffer(id) + Serialize([]);
    assert Serialize([MakeSample(id, 1)]) == SampleFromBuffer(id, 1) + Serialize([]);
  }

  /** `upload_pcm`.  A failed allocation of the working buffer sends nothing. */
  method UploadPcm(src: seq<byte>, h: Wav.WavHeader, sampleId: u16, chunkSize: u16, quick: bool,
                   scratch: seq<byte>, allocOk: bool) returns (wire: seq<byte>)
    requires |scratch| == EffectiveChunkSize(chunkSize)
    requires ReadsFit(EngineFor(src, h, sampleId, chunkSize), Int24(h.extra.dataSize))
    ensures !allocOk ==> wire == []
    ensures allocOk ==>
      wire == Serialize(UploadCommands(EngineFor(src, h, sampleId, chunkSize), h.extra.dataSize, scratch))
  {
    if !allocOk {
      return [];
    }
    var e := EngineFor(src, h, sampleId, chunkSize);
    var chunks := SendChunks(e, Int24(h.extra.dataSize), Cursor(scratch, 0), quick);
    wire := ClearBuffer(sampleId) + chunks + SampleFromBuffer(sampleId, 1);
    SerializeSandwich(sampleId, TransferLoop(e, Int24(h.extra.dataSize), Cursor(scratch, 0)));
  }

  /** The streaming order on the wire. */
  lemma SerializeStream(id: u16, first: seq<Command>, play: seq<Command>, rest: seq<Command>)
    ensures Serialize(StreamOrder(id, first, play, rest))
         == ClearBuffer(id) + Serialize(first) + SampleFromBuffer(id, 1) + Serialize(play) + Serialize(rest)
  {
    var a := [Clear(id)] + first + [MakeSample(id, 1)];
    SerializeSandwich(id, first);
    SerializeConcat(a + play, rest);
    SerializeConcat(a, play);
  }

  /** A stream on the wire, part by part. */
  lemma StreamWire(e: Engine, dataSize: u32, scratch: seq<byte>, channel: byte, volume: byte, duration: u16)
    requires e.chunkSize > 0 && |scratch| == e.chunkSize && ReadsFit(e, Int24(dataSize))
    requires Int24(dataSize) >= 0
    ensures Serialize(StreamCommands(e, dataSize, scratch, channel, volume, duration))
         == ClearBuffer(e.id)
            + Serialize(ChunkCommands(e.id, e.channels, NextRead(e, Int24(dataSize), Cursor(scratch, 0)).buf,
                                     ChunkLen(Int24(dataSize), e.chunkSize)))
            + SampleFromBuffer(e.id, 1) + PlaySample(e.id, channel, volume, duration)
            + Serialize(TransferLoop(e, Int24(dataSize) - ChunkLen(Int24(dataSize), e.chunkSize),
                                     NextRead(e, Int24(dataSize), Cursor(scratch, 0))))
  {
    var remaining := Int24(dataSize);
    var chunk := ChunkLen(remaining, e.chunkSize);
    var n := NextRead(e, remaining, Cursor(scratch, 0));
    PlaySampleSerializes(e.id, channel, volume, duration);
    SerializeStream(e.id, ChunkCommands(e.id, e.channels, n.buf, chunk),
                    PlayCommands(e.id, channel, volume, duration), TransferLoop(e, remaining - chunk, n));
  }

  /** `stream_pcm`.  A failed allocation of the working buffer sends nothing. */
  method StreamPcm(src: seq<byte>, h: Wav.WavHeader, sampleId: u16, chunkSize: u16,
                   channel: byte, volume: byte, duration: u16, quick: bool,
                   scratch: seq<byte>, allocOk: bool) returns (wire: seq<byte>)
    requires |scratch| == EffectiveChunkSize(chunkSize)
    requires ReadsFit(EngineFor(src, h, sampleId, chunkSize), Int24(h.extra.dataSize))
    requires Int24(h.extra.dataSize) >= 0
    ensures !allocOk ==> wire == []
    ensures allocOk ==>
      wire == Serialize(StreamCommands(EngineFor(src, h, sampleId, chunkSize), h.extra.dataSize,
                                       scratch, channel, volume, duration))
  {
    if !allocOk {
      return [];
    }
    var e := EngineFor(src, h, sampleId, chunkSize);
    wire := StreamChunks(e, h.extra.dataSize, scratch, channel, volume, duration, quick);
  }

  /** The body of `stream_pcm` for a given engine: clear, the first chunk,
      convert, play, then the chunk loop on what is left. */
  method StreamChunks(e: Engine, dataSize: u32, scratch: seq<byte>,
                      channel: byte, volume: byte, duration: u16, quick: bool) returns (wire: seq<byte>)
    requires e.chunkSize > 0 && |scratch| == e.chunkSize && ReadsFit(e, Int24(dataSize))
    requires Int24(dataSize) >= 0
    ensures wire == Serialize(StreamCommands(e, dataSize, scratch, channel, volume, duration))
  {
    var remaining := Int24(dataSize);
    var chunk := ChunkLen(remaining, e.chunkSize);
    var n := NextRead(e, remaining, Cursor(scratch, 0));
    var first := SendChunk(e, n.buf, chunk, quick);
    var rest := SendChunks(e, remaining - chunk, n, quick);
    wire := ClearBuffer(e.id) + first + SampleFromBuffer(e.id, 1)
            + PlaySample(e.id, channel, volume, duration) + rest;
    StreamWire(e, dataSize, scratch, channel, volume, duration);
  }
}
