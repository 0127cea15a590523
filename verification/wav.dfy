/** `parse_wav`, over the file's bytes instead of a `FILE`.
    The parser reads a fixed 36-byte prefix into a zeroed, packed
    little-endian struct (RIFF header plus a 16-byte `fmt ` body), checks the
    RIFF/WAVE tags, the PCM format code and the channel count, then walks the
    tagged chunks that start at byte 36 until it meets `data`. */
module Wav {
  import opened Bytes

  /** Size of the packed struct `parse_wav` reads first. */
  const HEADER_SIZE: nat := 36

  /** The outcome recorded in `extra_header.code`. */
  datatype Status = Ok | NotWav | NotPcm | DataNotFound | BadChannels

  /** The byte stored in `extra_header.code`; success leaves the
      zero-initialised field at 0. */
  function Code(s: Status): byte
  {
    match s
    case Ok => 0
    case NotWav => 1
    case NotPcm => 2
    case DataNotFound => 3
    case BadChannels => 4
  }

  /** `xHeader`: what the parser derives.  (`samples` is never written by the
      source and is not modelled.) */
  datatype Extra = Extra(dataOffset: nat, dataSize: u32, duration: u16, status: Status)

  /** `WavHeader`: the fields of the 36-byte prefix plus the derived part. */
  datatype WavHeader = WavHeader(
    chunkId: seq<byte>, chunkSize: u32, format: seq<byte>,
    subChunk1Id: seq<byte>, subChunk1Size: u32,
    audioFormat: u16, numChannels: u16, sampleRate: u32, byteRate: u32,
    blockAlign: u16, bitsPerSample: u16,
    extra: Extra)

  /** What `fread` leaves in the zero-initialised struct: the file's first 36
      bytes, or all of a shorter file followed by the zeros it did not overwrite. */
  function FixedPart(file: seq<byte>): (raw: seq<byte>)
    ensures |raw| == HEADER_SIZE
    ensures forall i :: 0 <= i < HEADER_SIZE ==> raw[i] == (if i < |file| then file[i] else 0)
  {
    if |file| >= HEADER_SIZE then file[..HEADER_SIZE]
    else file + seq(HEADER_SIZE - |file|, _ => 0)
  }

  /** The packed struct layout over the 36 raw bytes. */
  function ReadFixed(raw: seq<byte>): WavHeader
    requires |raw| == HEADER_SIZE
  {
    WavHeader(raw[0..4], LE32(raw, 4), raw[8..12], raw[12..16], LE32(raw, 16),
              LE16(raw, 20), LE16(raw, 22), LE32(raw, 24), LE32(raw, 28),
              LE16(raw, 32), LE16(raw, 34),
              Extra(0, 0, 0, Ok))
  }

  predicate IsRiffWave(h: WavHeader)
  {
    h.chunkId == RIFF && h.format == WAVE
  }

  /** The three checks that come before the chunk walk. */
  predicate FormatAccepted(h: WavHeader)
  {
    IsRiffWave(h) && h.audioFormat == 1 && (h.numChannels == 1 || h.numChannels == 2)
  }

  /** The duration computation divides by `sampleRate / 1000`; it is reached
      exactly when the format checks pass. */
  predicate ParseDefined(file: seq<byte>)
  {
    var h := ReadFixed(FixedPart(file));
    FormatAccepted(h) ==> h.sampleRate >= 1000
  }

  /** Position of the next chunk header after skipping a chunk of the given
      declared size: 8 header bytes plus the body. */
  function NextChunkPos(p: nat, size: u32): (q: nat)
    ensures q >= p + 8
  {
    p + 8 + size
  }

  datatype DataChunk = DataChunk(offset: nat, size: u32)

  /** The chunk walk from position `p`: read a tag and a 32-bit size; on
      `data` report the position after those 8 bytes and the declared size,
      otherwise skip the chunk.  Fewer than 8 bytes left ends the walk. */
  function FindData(file: seq<byte>, p: nat): (r: Option<DataChunk>)
    ensures r.Some? ==> p + 8 <= r.value.offset <= |file|
    ensures p + 8 > |file| ==> r.None?
    decreases |file| - p
  {
    if p + 8 > |file| then None
    else if file[p .. p + 4] == DATA then Some(DataChunk(p + 8, LE32(file, p + 4)))
    else FindData(file, NextChunkPos(p, LE32(file, p + 4)))
  }

  /** What the walk reports is a `data` header and the size it declares. */
  lemma {:induction false} FindDataFound(file: seq<byte>, p: nat)
    requires FindData(file, p).Some?
    ensures var d := FindData(file, p).value;
      && p + 8 <= d.offset <= |file|
      && file[d.offset - 8 .. d.offset - 4] == DATA
      && d.size == LE32(file, d.offset - 4)
    decreases |file| - p
  {
    if file[p .. p + 4] != DATA {
      FindDataFound(file, NextChunkPos(p, LE32(file, p + 4)));
    }
  }

  /** `dataSize / numChannels / (sampleRate / 1000)` in unsigned arithmetic,
      stored into a 16-bit field. */
  function Duration(dataSize: u32, channels: u16, sampleRate: u32): (d: u16)
    requires channels >= 1 && sampleRate >= 1000
  {
    (dataSize / channels / (sampleRate / 1000)) % 0x1_0000
  }

  lemma DurationOfNothing(channels: u16, sampleRate: u32)
    requires channels >= 1 && sampleRate >= 1000
    ensures Duration(0, channels, sampleRate) == 0
  {
    assert 0 / channels == 0;
  }

  function ParseWav(file: seq<byte>): (h: WavHeader)
    requires ParseDefined(file)
    ensures var raw := FixedPart(file);
      && h.chunkId == raw[0..4] && h.format == raw[8..12]
      && h.audioFormat == LE16(raw, 20) && h.numChannels == LE16(raw, 22)
      && h.sampleRate == LE32(raw, 24) && h.bitsPerSample == LE16(raw, 34)
      // the earliest failing check decides the code: 1, 2, 4, then 3
      && (Code(h.extra.status) == 1 <==> raw[0..4] != RIFF || raw[8..12] != WAVE)
      && (Code(h.extra.status) == 2 <==>
            raw[0..4] == RIFF && raw[8..12] == WAVE && LE16(raw, 20) != 1)
      && (Code(h.extra.status) == 4 <==>
            raw[0..4] == RIFF && raw[8..12] == WAVE && LE16(raw, 20) == 1
            && LE16(raw, 22) != 1 && LE16(raw, 22) != 2)
    ensures Code(h.extra.status) == 3 <==>
              FormatAccepted(h) && FindData(file, HEADER_SIZE).None?
    ensures h.extra.status == Ok <==> FormatAccepted(h) && FindData(file, HEADER_SIZE).Some?
    // a rejected file resolves no data region
    ensures h.extra.status != Ok ==>
              h.extra.dataOffset == 0 && h.extra.dataSize == 0 && h.extra.duration == 0
    // an accepted one points just past the header of a `data` chunk
    ensures h.extra.status == Ok ==>
              && HEADER_SIZE + 8 <= h.extra.dataOffset <= |file|
              && file[h.extra.dataOffset - 8 .. h.extra.dataOffset - 4] == DATA
              && h.extra.dataSize == LE32(file, h.extra.dataOffset - 4)
              && h.sampleRate >= 1000
              && h.extra.duration == Duration(h.extra.dataSize, h.numChannels, h.sampleRate)
    // and it is the `data` chunk the walk finds
    ensures h.extra.status == Ok ==>
              FindData(file, HEADER_SIZE) == Some(DataChunk(h.extra.dataOffset, h.extra.dataSize))
  {
    var h := ReadFixed(FixedPart(file));
    if !IsRiffWave(h) then h.(extra := Extra(0, 0, 0, NotWav))
    else if h.audioFormat != 1 then h.(extra := Extra(0, 0, 0, NotPcm))
    else if !(h.numChannels == 1 || h.numChannels == 2) then h.(extra := Extra(0, 0, 0, BadChannels))
    else match FindData(file, HEADER_SIZE)
      case Some(d) =>
        FindDataFound(file, HEADER_SIZE);
        h.(extra := Extra(d.offset, d.size, Duration(d.size, h.numChannels, h.sampleRate), Ok))
      case None =>
        DurationOfNothing(h.numChannels, h.sampleRate);
        h.(extra := Extra(0, 0, Duration(0, h.numChannels, h.sampleRate), DataNotFound))
  }

  // ---- building files: the parser's partner ----

  datatype Fmt = Fmt(audioFormat: u16, numChannels: u16, sampleRate: u32, byteRate: u32,
                     blockAlign: u16, bitsPerSample: u16)

  /** The 16-byte PCM `fmt ` body. */
  function FmtBody(f: Fmt): (r: seq<byte>)
    ensures |r| == 16
  {
    Le16Bytes(f.audioFormat) + Le16Bytes(f.numChannels) + Le32Bytes(f.sampleRate)
    + Le32Bytes(f.byteRate) + Le16Bytes(f.blockAlign) + Le16Bytes(f.bitsPerSample)
  }

  /** A chunk other than `data` that may sit between `fmt ` and `data`. */
  datatype Chunk = Chunk(tag: seq<byte>, body: seq<byte>)

  predicate Skippable(c: Chunk)
  {
    |c.tag| == 4 && c.tag != DATA && |c.body| < 0x1_0000_0000
  }

  predicate AllSkippable(cs: seq<Chunk>)
  {
    forall i :: 0 <= i < |cs| ==> Skippable(cs[i])
  }

  function ChunkBytes(c: Chunk): (r: seq<byte>)
    requires Skippable(c)
    ensures |r| == 8 + |c.body|
  {
    c.tag + Le32Bytes(|c.body|) + c.body
  }

  function ChunksBytes(cs: seq<Chunk>): seq<byte>
    requires AllSkippable(cs)
  {
    if |cs| == 0 then [] else ChunkBytes(cs[0]) + ChunksBytes(cs[1..])
  }

  /** The RIFF header, a `fmt ` chunk whose declared size is `fmtSize` but whose
      body is the 16 PCM bytes, the skipped chunks, then a `data` chunk header
      declaring `dataSize`, followed by whatever bytes come after it. */
  function WavFile(riffSize: u32, fmtSize: u32, f: Fmt, skipped: seq<Chunk>,
                   dataSize: u32, rest: seq<byte>): seq<byte>
    requires AllSkippable(skipped)
  {
    Head(riffSize, fmtSize, f) + ChunksBytes(skipped) + DATA + Le32Bytes(dataSize) + rest
  }

  function Head(riffSize: u32, fmtSize: u32, f: Fmt): (r: seq<byte>)
    ensures |r| == HEADER_SIZE
  {
    RIFF + Le32Bytes(riffSize) + WAVE + FMT + Le32Bytes(fmtSize) + FmtBody(f)
  }

  lemma LE16At(s: seq<byte>, i: nat, w: u16)
    requires i + 2 <= |s| && s[i .. i + 2] == Le16Bytes(w)
    ensures LE16(s, i) == w
  {
    assert s[i] == s[i .. i + 2][0] && s[i + 1] == s[i .. i + 2][1];
  }

  lemma LE32At(s: seq<byte>, i: nat, w: u32)
    requires i + 4 <= |s| && s[i .. i + 4] == Le32Bytes(w)
    ensures LE32(s, i) == w
  {
    var t := s[i .. i + 4];
    assert s[i] == t[0] && s[i + 1] == t[1] && s[i + 2] == t[2] && s[i + 3] == t[3];
  }

  /** The prefix of a built file reads back as the fields it was built from. */
  lemma {:induction false} ReadHead(riffSize: u32, fmtSize: u32, f: Fmt)
    ensures var h := ReadFixed(Head(riffSize, fmtSize, f));
      && h.chunkId == RIFF && h.format == WAVE && h.subChunk1Id == FMT
      && h.chunkSize == riffSize && h.subChunk1Size == fmtSize
      && h.audioFormat == f.audioFormat && h.numChannels == f.numChannels
      && h.sampleRate == f.sampleRate && h.byteRate == f.byteRate
      && h.blockAlign == f.blockAlign && h.bitsPerSample == f.bitsPerSample
  {
    var r := Head(riffSize, fmtSize, f);
    var b := FmtBody(f);
    assert r == RIFF + Le32Bytes(riffSize) + WAVE + FMT + Le32Bytes(fmtSize) + b;
    assert r[0..4] == RIFF;
    assert r[4..8] == Le32Bytes(riffSize);
    assert r[8..12] == WAVE;
    assert r[12..16] == FMT;
    assert r[16..20] == Le32Bytes(fmtSize);
    assert r[20..36] == b;
    LE32At(r, 4, riffSize);
    LE32At(r, 16, fmtSize);
    assert b[0..2] == Le16Bytes(f.audioFormat);
    assert b[2..4] == Le16Bytes(f.numChannels);
    assert b[4..8] == Le32Bytes(f.sampleRate);
    assert b[8..12] == Le32Bytes(f.byteRate);
    assert b[12..14] == Le16Bytes(f.blockAlign);
    assert b[14..16] == Le16Bytes(f.bitsPerSample);
    assert r[20..22] == b[0..2];
    assert r[22..24] == b[2..4];
    assert r[24..28] == b[4..8];
    assert r[28..32] == b[8..12];
    assert r[32..34] == b[12..14];
    assert r[34..36] == b[14..16];
    LE16At(r, 20, f.audioFormat);
    LE16At(r, 22, f.numChannels);
    LE32At(r, 24, f.sampleRate);
    LE32At(r, 28, f.byteRate);
    LE16At(r, 32, f.blockAlign);
    LE16At(r, 34, f.bitsPerSample);
  }

  /** Where a run of chunks puts its headers: at `p` a tag other than `data`
      and a size that sends the walk past the first body, and so on for the
      rest of the run. */
  predicate HeadersAt(file: seq<byte>, p: nat, cs: seq<Chunk>)
    decreases |cs|
  {
    |cs| == 0 ||
      (p + 8 <= |file| && file[p .. p + 4] != DATA
       && NextChunkPos(p, LE32(file, p + 4)) == p + 8 + |cs[0].body|
       && HeadersAt(file, p + 8 + |cs[0].body|, cs[1..]))
  }

  /** The number of bytes a run of chunks occupies. */
  function Span(cs: seq<Chunk>): nat
  {
    if |cs| == 0 then 0 else 8 + |cs[0].body| + Span(cs[1..])
  }

  /** The bytes of a run of skippable chunks put its headers where the walk
      looks for them, and occupy exactly its span. */
  lemma {:induction false} ChunksLaidOut(file: seq<byte>, p: nat, cs: seq<Chunk>)
    requires AllSkippable(cs)
    requires p + |ChunksBytes(cs)| <= |file|
    requires file[p .. p + |ChunksBytes(cs)|] == ChunksBytes(cs)
    ensures HeadersAt(file, p, cs) && Span(cs) == |ChunksBytes(cs)|
    decreases |cs|
  {
    if |cs| > 0 {
      var rest := ChunksTail(cs);
      var q := p + |ChunkBytes(cs[0])|;
      ChunkHeaderAt(file, p, cs[0], rest);
      ChunksLaidOut(file, q, cs[1..]);
    }
  }

  /** Past a run of chunks whose headers it finds, the walk stops at the
      `data` header that follows them. */
  lemma {:induction false} WalkFindsData(file: seq<byte>, p: nat, cs: seq<Chunk>, ds: u32)
    requires HeadersAt(file, p, cs)
    requires p + Span(cs) + 8 <= |file|
    requires file[p + Span(cs) .. p + Span(cs) + 8] == DATA + Le32Bytes(ds)
    ensures FindData(file, p) == Some(DataChunk(p + Span(cs) + 8, ds))
    decreases |cs|
  {
    if |cs| == 0 {
      FindDataAt(file, p, ds);
    } else {
      var q := p + 8 + |cs[0].body|;
      FindDataSkips(file, p, q);
      WalkFindsData(file, q, cs[1..], ds);
    }
  }

  /** A `data` header at `p` ends the walk there. */
  lemma FindDataAt(file: seq<byte>, p: nat, ds: u32)
    requires p + 8 <= |file| && file[p .. p + 8] == DATA + Le32Bytes(ds)
    ensures FindData(file, p) == Some(DataChunk(p + 8, ds))
  {
    SliceSplit(file, p, DATA, Le32Bytes(ds));
    LE32At(file, p + 4, ds);
  }

  /** A header other than `data` sends the walk on to the next chunk. */
  lemma FindDataSkips(file: seq<byte>, p: nat, q: nat)
    requires p + 8 <= |file| && file[p .. p + 4] != DATA
    requires NextChunkPos(p, LE32(file, p + 4)) == q
    ensures FindData(file, p) == FindData(file, q)
  {
  }

  /** Peeling the first chunk off a run of skippable chunks. */
  lemma ChunksTail(cs: seq<Chunk>) returns (rest: seq<byte>)
    requires AllSkippable(cs) && |cs| > 0
    ensures AllSkippable(cs[1..])
    ensures rest == ChunksBytes(cs[1..])
    ensures ChunksBytes(cs) == ChunkBytes(cs[0]) + rest
  {
    assert AllSkippable(cs[1..]) by {
      forall i | 0 <= i < |cs[1..]| ensures Skippable(cs[1..][i]) {
        assert cs[1..][i] == cs[i + 1];
      }
    }
    rest := ChunksBytes(cs[1..]);
  }

  lemma SliceSplit(file: seq<byte>, p: nat, a: seq<byte>, b: seq<byte>)
    requires p + |a| + |b| <= |file| && file[p .. p + |a| + |b|] == a + b
    ensures file[p .. p + |a|] == a && file[p + |a| .. p + |a| + |b|] == b
  {
    var u := file[p .. p + |a| + |b|];
    assert file[p .. p + |a|] == u[..|a|];
    assert file[p + |a| .. p + |a| + |b|] == u[|a|..];
  }

  /** Reading a skippable chunk's header at `p` yields its tag and body length,
      and the walk's next position is where the following bytes begin. */
  lemma ChunkHeaderAt(file: seq<byte>, p: nat, c: Chunk, after: seq<byte>)
    requires Skippable(c)
    requires p + |ChunkBytes(c)| + |after| <= |file|
    requires file[p .. p + |ChunkBytes(c)| + |after|] == ChunkBytes(c) + after
    ensures file[p .. p + 4] == c.tag && file[p .. p + 4] != DATA
    ensures NextChunkPos(p, LE32(file, p + 4)) == p + |ChunkBytes(c)|
    ensures file[p + |ChunkBytes(c)| .. p + |ChunkBytes(c)| + |after|] == after
  {
    var cb := ChunkBytes(c);
    SliceSplit(file, p, cb, after);
    assert cb == c.tag + Le32Bytes(|c.body|) + c.body;
    SliceSplit(file, p, c.tag + Le32Bytes(|c.body|), c.body);
    SliceSplit(file, p, c.tag, Le32Bytes(|c.body|));
    LE32At(file, p + 4, |c.body|);
  }

  /** A well-formed 8-bit-or-wider PCM file, mono or stereo, parses to `Ok`,
      with the data region just past the `data` header, the declared size,
      and the duration `dataSize / channels / (sampleRate / 1000)`.  The
      declared `fmt ` size plays no part: any value gives the same result. */
  lemma {:induction false} ParseWavFile(riffSize: u32, fmtSize: u32, f: Fmt, skipped: seq<Chunk>,
                                        dataSize: u32, rest: seq<byte>)
    requires f.audioFormat == 1 && (f.numChannels == 1 || f.numChannels == 2)
    requires f.sampleRate >= 1000
    requires AllSkippable(skipped)
    ensures var file := WavFile(riffSize, fmtSize, f, skipped, dataSize, rest);
      && ParseDefined(file)
      && var h := ParseWav(file);
      && h.extra == Extra(HEADER_SIZE + |ChunksBytes(skipped)| + 8, dataSize,
                          Duration(dataSize, f.numChannels, f.sampleRate), Ok)
      && h.audioFormat == f.audioFormat && h.numChannels == f.numChannels
      && h.sampleRate == f.sampleRate && h.bitsPerSample == f.bitsPerSample
  {
    var file := WavFile(riffSize, fmtSize, f, skipped, dataSize, rest);
    var body := ChunksBytes(skipped);
    WavFileLayout(riffSize, fmtSize, f, skipped, dataSize, rest);
    ChunksLaidOut(file, HEADER_SIZE, skipped);
    WalkFindsData(file, HEADER_SIZE, skipped, dataSize);
    ParseFound(file, riffSize, fmtSize, f, HEADER_SIZE + |body| + 8, dataSize);
  }

  /** The bytes after the `data` header of a built file are its `rest`. */
  lemma WavFileRest(riffSize: u32, fmtSize: u32, f: Fmt, skipped: seq<Chunk>,
                    dataSize: u32, rest: seq<byte>)
    requires AllSkippable(skipped)
    ensures var file := WavFile(riffSize, fmtSize, f, skipped, dataSize, rest);
      && |file| == HEADER_SIZE + |ChunksBytes(skipped)| + 8 + |rest|
      && file[HEADER_SIZE + |ChunksBytes(skipped)| + 8 ..] == rest
  {
    var file := WavFile(riffSize, fmtSize, f, skipped, dataSize, rest);
    assert file == (Head(riffSize, fmtSize, f) + ChunksBytes(skipped) + DATA + Le32Bytes(dataSize)) + rest;
  }

  /** Where the parts of a built file sit. */
  lemma WavFileLayout(riffSize: u32, fmtSize: u32, f: Fmt, skipped: seq<Chunk>,
                      dataSize: u32, rest: seq<byte>)
    requires AllSkippable(skipped)
    ensures var file := WavFile(riffSize, fmtSize, f, skipped, dataSize, rest);
      var n := |ChunksBytes(skipped)|;
      && HEADER_SIZE + n + 8 <= |file|
      && FixedPart(file) == Head(riffSize, fmtSize, f)
      && file[HEADER_SIZE .. HEADER_SIZE + n] == ChunksBytes(skipped)
      && file[HEADER_SIZE + n .. HEADER_SIZE + n + 8] == DATA + Le32Bytes(dataSize)
  {
    var head := Head(riffSize, fmtSize, f);
    var body := ChunksBytes(skipped);
    var file := WavFile(riffSize, fmtSize, f, skipped, dataSize, rest);
    assert file == head + (body + (DATA + Le32Bytes(dataSize)) + rest);
    assert FixedPart(file) == head;
    assert file[HEADER_SIZE .. HEADER_SIZE + |body| + 8] == body + (DATA + Le32Bytes(dataSize));
    SliceSplit(file, HEADER_SIZE, body, DATA + Le32Bytes(dataSize));
  }

  /** An accepted format whose walk finds `data` parses to `Ok` with that region. */
  lemma ParseFound(file: seq<byte>, riffSize: u32, fmtSize: u32, f: Fmt, off: nat, ds: u32)
    requires f.audioFormat == 1 && (f.numChannels == 1 || f.numChannels == 2)
    requires f.sampleRate >= 1000
    requires FixedPart(file) == Head(riffSize, fmtSize, f)
    requires FindData(file, HEADER_SIZE) == Some(DataChunk(off, ds))
    ensures ParseDefined(file)
    ensures var h := ParseWav(file);
      && h.extra == Extra(off, ds, Duration(ds, f.numChannels, f.sampleRate), Ok)
      && h.audioFormat == f.audioFormat && h.numChannels == f.numChannels
      && h.sampleRate == f.sampleRate && h.bitsPerSample == f.bitsPerSample
  {
    ReadHead(riffSize, fmtSize, f);
  }

  // ---- the declared `fmt ` size is never used ----

  /** A WAVE_FORMAT_EX style `fmt ` chunk (declared size 18, two extension
      bytes after the 16 PCM bytes) throws the walk off: it starts reading a
      chunk header at byte 36, in the middle of the extension, takes `ta` plus
      the low bytes of the data size as a chunk size of at least 0x6174, and
      leaps past the end of any file shorter than that.  The file is reported
      as having no `data` chunk. */
  lemma ExtendedFmtNotFound(riffSize: u32, f: Fmt, ext: seq<byte>, dataSize: u32, audio: seq<byte>)
    requires f.audioFormat == 1 && (f.numChannels == 1 || f.numChannels == 2)
    requires f.sampleRate >= 1000
    requires |ext| == 2 && |audio| <= 0x6170
    ensures var file := Head(riffSize, 18, f) + ext + DATA + Le32Bytes(dataSize) + audio;
      && ParseDefined(file)
      && ParseWav(file).extra.status == DataNotFound
  {
    var head := Head(riffSize, 18, f);
    var size := Le32Bytes(dataSize);
    var file := head + ext + DATA + size + audio;
    assert file == head + (ext + DATA + size + audio);
    assert FixedPart(file) == head;
    ReadHead(riffSize, 18, f);
    assert file[HEADER_SIZE + 2] == DATA[0];
    assert file[HEADER_SIZE .. HEADER_SIZE + 4] != DATA by {
      assert file[HEADER_SIZE .. HEADER_SIZE + 4][2] == DATA[0] != DATA[2];
    }
    assert file[HEADER_SIZE + 4] == 0x74 && file[HEADER_SIZE + 5] == 0x61;
    assert LE32(file, HEADER_SIZE + 4) >= 0x6174;
  }

  // ---- the chunk walk's seek, as written ----

  /** A `uint32_t` passed where the 32-bit `long` offset of `fseek` is expected. */
  function Long(x: u32): (r: int)
    ensures -0x8000_0000 <= r < 0x8000_0000
    ensures (r - x) % 0x1_0000_0000 == 0
  {
    if x < 0x8000_0000 then x else x - 0x1_0000_0000
  }

  /** The walk as written moves by `fseek(file, subChunkSize, SEEK_CUR)`
      from just past the chunk header, position `p + 8`, with the size
      taken as a 32-bit `long`: a size of 2^31 or more is the offset
      `size - 2^32`.  A seek that would land before the start of the file
      fails (POSIX `fseek` reports `EINVAL`) and leaves the position where
      it was, so the walk then reads the chunk's body as the next header;
      only the largest sizes land behind `p + 8`. */
  function NextChunkPosAsWritten(p: nat, size: u32): (q: nat)
    ensures size < 0x8000_0000 ==> q == p + 8 + size
    ensures 0x8000_0000 <= size < 0x1_0000_0000 - (p + 8) ==> q == p + 8
    ensures 0x8000_0000 <= size && 0x1_0000_0000 - (p + 8) <= size ==>
              q == p + 8 + size - 0x1_0000_0000 && q < p + 8
  {
    var target := p + 8 + Long(size);
    if target < 0 then p + 8 else target
  }

  /** For sizes below 2^31 the seek as written and the intended skip agree. */
  lemma SeekAgreesBelowSignBit(p: nat, size: u32)
    requires size < 0x8000_0000
    ensures NextChunkPosAsWritten(p, size) == NextChunkPos(p, size)
  {
  }

  /** A chunk declaring size 0xFFFFFFF8 sends the walk as written back to its
      own header, which it then reads again: the loop never ends.  (Files
      on the Agon's FAT filesystem are below 4 GiB.)  The intended skip
      always moves forward, so `FindData` terminates on the same file and
      reports no `data` chunk. */
  lemma SeekWrapRevisitsChunk(file: seq<byte>, p: nat)
    requires p + 8 <= |file| < 0x1_0000_0000 && file[p .. p + 4] != DATA
    requires LE32(file, p + 4) == 0xFFFF_FFF8
    ensures NextChunkPosAsWritten(p, LE32(file, p + 4)) == p
    ensures NextChunkPos(p, LE32(file, p + 4)) > |file|
    ensures FindData(file, p).None?
  {
  }

  /** Such a chunk exists in an otherwise well-formed file: a `JUNK` chunk
      declaring 0xFFFFFFF8 right after the header. */
  lemma WrappedJunkChunk(riffSize: u32, f: Fmt, rest: seq<byte>)
    ensures var file := Head(riffSize, 16, f) + JUNK + Le32Bytes(0xFFFF_FFF8) + rest;
      && |file| >= HEADER_SIZE + 8
      && file[HEADER_SIZE .. HEADER_SIZE + 4] != DATA
      && LE32(file, HEADER_SIZE + 4) == 0xFFFF_FFF8
  {
    var file := Head(riffSize, 16, f) + JUNK + Le32Bytes(0xFFFF_FFF8) + rest;
    assert file[HEADER_SIZE .. HEADER_SIZE + 4] == JUNK;
    assert file[HEADER_SIZE + 4 .. HEADER_SIZE + 8] == Le32Bytes(0xFFFF_FFF8);
    LE32At(file, HEADER_SIZE + 4, 0xFFFF_FFF8);
  }

  const JUNK: seq<byte> := [0x4A, 0x55, 0x4E, 0x4B]
}
