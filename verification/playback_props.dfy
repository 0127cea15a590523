/** What `main` puts on the wire, end to end: the loop sentinel, the
    handling of rejected files, the audio a well-formed mono or stereo file
    delivers, and the read-start discrepancy of the engines as written. */
module PlaybackProps {
  import opened Bytes
  import opened Vdp
  import opened Downmix
  import opened Wav
  import opened Transfer
  import opened TransferProps
  import opened Playback

  /** `--loop` without `--repeat` reaches the wire as the 16-bit duration
      bytes 0xFF, 0xFF (bytes 21 and 22 of `play_sample`), in both modes. */
  lemma LoopSentinelOnWire(o: Options, h: WavHeader)
    requires o.loop && o.repeat.None?
    ensures var w := PlaySample(SampleId(o), Channel(o), Volume(o), StreamDuration(o, h));
      |w| == 23 && w[21] == 0xFF && w[22] == 0xFF
    ensures PlaySample(SampleId(o), Channel(o), Volume(o), UploadPlayDuration(o, h))
         == PlaySample(SampleId(o), Channel(o), Volume(o), StreamDuration(o, h))
  {
  }

  /** The audio that reaches the peripheral buffer is the audio of the
      transfer alone: the play command adds none, and a failed allocation
      sends none. */
  lemma CommandsAppend(h: WavHeader, src: seq<byte>, o: Options, scratch: seq<byte>)
    requires RunnableWith(h, o) && |scratch| == EffectiveChunkSize(ChunkOption(o))
    ensures AppendedBytes(CommandsFor(h, src, o, scratch, true))
         == AppendedBytes(TransferLoop(EngineFor(src, h, SampleId(o), ChunkOption(o)),
                                       Int24(h.extra.dataSize), Cursor(scratch, 0)))
    ensures AppendedBytes(CommandsFor(h, src, o, scratch, false)) == []
  {
    var e := EngineFor(src, h, SampleId(o), ChunkOption(o));
    var loop := TransferLoop(e, Int24(h.extra.dataSize), Cursor(scratch, 0));
    var play := PlayCommands(SampleId(o), Channel(o), Volume(o), UploadPlayDuration(o, h));
    PlayHasNoAppends(SampleId(o), Channel(o), Volume(o), UploadPlayDuration(o, h));
    NoAppends([]);
    Silent(Clear(e.id));
    Silent(MakeSample(e.id, 1));
    if o.stream {
      StreamDeliversAsUpload(e, h.extra.dataSize, scratch, Channel(o), Volume(o), StreamDuration(o, h));
      AppendsAround([Clear(e.id)], loop, [MakeSample(e.id, 1)]);
    } else {
      var upload := UploadCommands(e, h.extra.dataSize, scratch);
      AppendsAround([Clear(e.id)], loop, [MakeSample(e.id, 1)]);
      AppendsConcat(upload, if o.play then play else []);
      AppendsConcat([], if o.play then play else []);
    }
  }

  /** With a data size of zero the commands, whatever they would read,
      still clear the buffer and create a sample, and carry no audio. */
  lemma EmptyDataClearsAndConverts(h: WavHeader, src: seq<byte>, o: Options, scratch: seq<byte>)
    requires RunnableWith(h, o) && |scratch| == EffectiveChunkSize(ChunkOption(o))
    requires h.extra.dataSize == 0
    ensures var cs := CommandsFor(h, src, o, scratch, true);
      && |cs| >= 2 && cs[0] == Clear(SampleId(o))
      && MakeSample(SampleId(o), 1) in cs
      && AppendedBytes(cs) == []
  {
    var e := EngineFor(src, h, SampleId(o), ChunkOption(o));
    CommandsAppend(h, src, o, scratch);
    LoopOnlyAppends(e, Int24(h.extra.dataSize), Cursor(scratch, 0));
    var cs := CommandsFor(h, src, o, scratch, true);
    if o.stream {
      var remaining := Int24(h.extra.dataSize);
      var chunk := ChunkLen(remaining, e.chunkSize);
      var n := NextRead(e, remaining, Cursor(scratch, 0));
      var first := ChunkCommands(e.id, e.channels, n.buf, chunk);
      var tail := PlayCommands(e.id, Channel(o), Volume(o), StreamDuration(o, h))
                  + TransferLoop(e, remaining - chunk, n);
      assert cs == [Clear(e.id)] + first + [MakeSample(e.id, 1)] + tail;
      assert cs[1 + |first|] == MakeSample(e.id, 1);
    } else {
      UploadShape(e, h.extra.dataSize, scratch);
      var u := UploadCommands(e, h.extra.dataSize, scratch);
      assert u == [Clear(e.id), MakeSample(e.id, 1)];
      assert cs[1] == MakeSample(e.id, 1);
    }
  }

  /** `main` never looks at the status: for a rejected file the engines
      still run, clear the buffer and create a sample, but with a data size
      of zero they carry no audio. */
  lemma RejectedFileStillClearsAndConverts(file: seq<byte>, o: Options, scratch: seq<byte>)
    requires Runnable(file, o) && |scratch| == EffectiveChunkSize(ChunkOption(o))
    requires ParseWav(file).extra.status != Ok
    ensures var cs := RunCommands(file, o, scratch, true);
      && |cs| >= 2 && cs[0] == Clear(SampleId(o))
      && MakeSample(SampleId(o), 1) in cs
      && AppendedBytes(cs) == []
  {
    var h := ParseWav(file);
    var src := SourceAsWritten(file);
    EmptyDataClearsAndConverts(h, src, o, scratch);
    assert RunCommands(file, o, scratch, true) == CommandsFor(h, src, o, scratch, true);
  }

  /** An accepted 8-bit file's engine reads the data region of the file. */
  lemma EngineOfWavFile(riffSize: u32, fmtSize: u32, f: Fmt, skipped: seq<Chunk>,
                        dataSize: u32, audio: seq<byte>, o: Options)
    requires f.audioFormat == 1 && (f.numChannels == 1 || f.numChannels == 2)
    requires f.sampleRate >= 1000 && f.bitsPerSample == 8
    requires AllSkippable(skipped)
    ensures var file := WavFile(riffSize, fmtSize, f, skipped, dataSize, audio);
      && ParseDefined(file)
      && ParseWav(file).extra.dataSize == dataSize
      && TransferSource(file) == audio
      && EngineFor(audio, ParseWav(file), SampleId(o), ChunkOption(o))
         == Engine(audio, SampleId(o), f.numChannels, 1, EffectiveChunkSize(ChunkOption(o)))
  {
    var file := WavFile(riffSize, fmtSize, f, skipped, dataSize, audio);
    ParseWavFile(riffSize, fmtSize, f, skipped, dataSize, audio);
    var off := HEADER_SIZE + |ChunksBytes(skipped)| + 8;
    assert file == (Head(riffSize, fmtSize, f) + ChunksBytes(skipped) + DATA + Le32Bytes(dataSize)) + audio;
    assert file[off..] == audio;
  }

  /** With the corrected read, a well-formed 8-bit mono file, streamed or
      uploaded, fills the peripheral buffer with exactly its `dataSize`
      audio bytes. */
  lemma MonoFileDelivers(riffSize: u32, fmtSize: u32, f: Fmt, skipped: seq<Chunk>,
                         dataSize: u32, audio: seq<byte>, o: Options, scratch: seq<byte>)
    requires f.audioFormat == 1 && f.numChannels == 1
    requires f.sampleRate >= 1000 && f.bitsPerSample == 8
    requires AllSkippable(skipped)
    requires dataSize < 0x80_0000 && dataSize <= |audio|
    requires |scratch| == EffectiveChunkSize(ChunkOption(o))
    ensures var file := WavFile(riffSize, fmtSize, f, skipped, dataSize, audio);
      && Runnable(file, o)
      && AppendedBytes(CorrectedCommands(file, o, scratch, true)) == audio[..dataSize]
  {
    var file := WavFile(riffSize, fmtSize, f, skipped, dataSize, audio);
    EngineOfWavFile(riffSize, fmtSize, f, skipped, dataSize, audio, o);
    CommandsAppend(ParseWav(file), audio, o, scratch);
    MonoLoopDelivers(EngineFor(audio, ParseWav(file), SampleId(o), ChunkOption(o)), dataSize, Cursor(scratch, 0));
  }

  /** With the corrected read, a well-formed 8-bit stereo file, with an even
      chunk size, fills the peripheral buffer with the downmix of its audio: one averaged byte per
      left/right pair. */
  lemma StereoFileDelivers(riffSize: u32, fmtSize: u32, f: Fmt, skipped: seq<Chunk>,
                           dataSize: u32, audio: seq<byte>, o: Options, scratch: seq<byte>)
    requires f.audioFormat == 1 && f.numChannels == 2
    requires f.sampleRate >= 1000 && f.bitsPerSample == 8
    requires AllSkippable(skipped)
    requires dataSize < 0x80_0000 && dataSize <= |audio|
    requires |scratch| == EffectiveChunkSize(ChunkOption(o)) && |scratch| % 2 == 0
    ensures var file := WavFile(riffSize, fmtSize, f, skipped, dataSize, audio);
      && Runnable(file, o)
      && AppendedBytes(CorrectedCommands(file, o, scratch, true))
         == ConvertStereoToMono(audio[..dataSize], dataSize / 2)
  {
    var file := WavFile(riffSize, fmtSize, f, skipped, dataSize, audio);
    EngineOfWavFile(riffSize, fmtSize, f, skipped, dataSize, audio, o);
    CommandsAppend(ParseWav(file), audio, o, scratch);
    StereoLoopDownmixes(EngineFor(audio, ParseWav(file), SampleId(o), ChunkOption(o)), dataSize, Cursor(scratch, 0));
  }

  // ---- the read start as written ----

  /** Where the two reads start in a file whose data region holds `audio`. */
  lemma SourcesOfLayout(file: seq<byte>, off: nat, audio: seq<byte>)
    requires ParseDefined(file) && ParseWav(file).extra.dataOffset == off
    requires off <= |file| && file[off..] == audio
    ensures TransferSource(file) == audio
    ensures off <= |audio| ==> SourceAsWritten(file) == audio[off..]
    ensures |audio| < off ==> SourceAsWritten(file) == []
  {
    if off <= |audio| {
      assert file[off + off ..] == audio[off..];
    }
  }

  /** The engines as written read the data region shifted by `dataOffset`:
      for a well-formed file whose audio is at least `dataOffset` bytes long,
      they start that many bytes into the audio, so its first `dataOffset`
      bytes are never sent, and the last `dataOffset` bytes sent come from
      beyond the region (or are stale buffer contents once the file runs
      out). */
  lemma AsWrittenSkipsAudio(riffSize: u32, fmtSize: u32, f: Fmt, skipped: seq<Chunk>,
                            dataSize: u32, audio: seq<byte>)
    requires f.audioFormat == 1 && (f.numChannels == 1 || f.numChannels == 2)
    requires f.sampleRate >= 1000
    requires AllSkippable(skipped)
    ensures var file := WavFile(riffSize, fmtSize, f, skipped, dataSize, audio);
      var off := HEADER_SIZE + |ChunksBytes(skipped)| + 8;
      && ParseDefined(file) && ParseWav(file).extra.status == Ok
      && ParseWav(file).extra.dataOffset == off
      && TransferSource(file) == audio
      && (off <= |audio| ==> SourceAsWritten(file) == audio[off ..])
      && (|audio| < off ==> SourceAsWritten(file) == [])
  {
    var file := WavFile(riffSize, fmtSize, f, skipped, dataSize, audio);
    ParseWavFile(riffSize, fmtSize, f, skipped, dataSize, audio);
    WavFileRest(riffSize, fmtSize, f, skipped, dataSize, audio);
    SourcesOfLayout(file, HEADER_SIZE + |ChunksBytes(skipped)| + 8, audio);
  }

  /** The commands for a mono 8-bit header, whatever they read from:
      `dataSize` bytes reach the buffer, beginning with as much of the
      input as there is. */
  lemma MonoCommandsSend(h: WavHeader, src: seq<byte>, o: Options, scratch: seq<byte>)
    requires RunnableWith(h, o) && |scratch| == EffectiveChunkSize(ChunkOption(o))
    requires h.numChannels == 1 && h.bitsPerSample == 8 && h.extra.dataSize < 0x80_0000
    ensures var k := Min(h.extra.dataSize, |src|);
      var sent := AppendedBytes(CommandsFor(h, src, o, scratch, true));
      |sent| == h.extra.dataSize && sent[..k] == src[..k]
  {
    var e := EngineFor(src, h, SampleId(o), ChunkOption(o));
    CommandsAppend(h, src, o, scratch);
    MonoLoopLength(e, h.extra.dataSize, Cursor(scratch, 0));
    MonoLoopPrefix(e, h.extra.dataSize, Cursor(scratch, 0));
  }

  /** Bytes that begin with a prefix of a suffix of the file begin with
      that stretch of the file. */
  lemma SentFromSuffix(file: seq<byte>, from: nat, src: seq<byte>, sent: seq<byte>, size: nat)
    requires from <= |file| && src == file[from..]
    requires |sent| == size && sent[..Min(size, |src|)] == src[..Min(size, |src|)]
    ensures var k := Min(size, |file| - from);
      sent[..k] == file[from .. from + k]
  {
    SuffixPrefix(file, from, Min(size, |src|));
  }

  /** `main` as written, on any parsed 8-bit mono file: the buffer receives
      `dataSize` bytes, and as many of them as the file still holds are
      those that start `2 * dataOffset` bytes into the file, not the ones
      at `dataOffset`.  (The rest are whatever the working buffer held.) */
  lemma MonoRunSends(file: seq<byte>, o: Options, scratch: seq<byte>)
    requires Runnable(file, o) && |scratch| == EffectiveChunkSize(ChunkOption(o))
    requires ParseWav(file).numChannels == 1 && ParseWav(file).bitsPerSample == 8
    requires ParseWav(file).extra.dataSize < 0x80_0000
    ensures var x := ParseWav(file).extra;
      var from := Min(2 * x.dataOffset, |file|);
      var k := Min(x.dataSize, |file| - from);
      var sent := AppendedBytes(RunCommands(file, o, scratch, true));
      |sent| == x.dataSize && sent[..k] == file[from .. from + k]
  {
    var h := ParseWav(file);
    var src := SourceAsWritten(file);
    var from := Min(2 * h.extra.dataOffset, |file|);
    assert RunCommands(file, o, scratch, true) == CommandsFor(h, src, o, scratch, true);
    MonoCommandsSend(h, src, o, scratch);
    SentFromSuffix(file, from, src, AppendedBytes(RunCommands(file, o, scratch, true)), h.extra.dataSize);
  }

  /** A 48-byte mono file with four audio bytes: with the corrected read the
      buffer receives those four bytes; as written, the read starts at byte
      88, past the end, so the buffer receives the working buffer's stale
      contents instead. */
  lemma AsWrittenUploadSendsStaleBytes()
    ensures var file := WavFile(40, 16, Fmt(1, 1, 8000, 8000, 1, 8), [], 4, [10, 20, 30, 40]);
      && ParseDefined(file)
      && ParseWav(file).extra.dataOffset == 44
      && SourceAsWritten(file) == []
      && TransferSource(file) == [10, 20, 30, 40]
      && AppendedBytes(TransferLoop(Engine([], 0, 1, 1, 4), 4, Cursor([0, 0, 0, 0], 0))) == [0, 0, 0, 0]
      && AppendedBytes(TransferLoop(Engine([10, 20, 30, 40], 0, 1, 1, 4), 4, Cursor([0, 0, 0, 0], 0)))
         == [10, 20, 30, 40]
  {
    var f := Fmt(1, 1, 8000, 8000, 1, 8);
    var file := WavFile(40, 16, f, [], 4, [10, 20, 30, 40]);
    ParseWavFile(40, 16, f, [], 4, [10, 20, 30, 40]);
    assert ChunksBytes([]) == [];
    assert |file| == 48;
    assert file[44..] == [10, 20, 30, 40];
    var stale := Engine([], 0, 1, 1, 4);
    LoopStepAppended(stale, 4, Cursor([0, 0, 0, 0], 0));
    assert NextRead(stale, 4, Cursor([0, 0, 0, 0], 0)) == Cursor([0, 0, 0, 0], 0);
    ChunkAppended(0, 1, [0, 0, 0, 0], 4);
    assert TransferLoop(stale, 0, Cursor([0, 0, 0, 0], 0)) == [];
    MonoLoopDelivers(Engine([10, 20, 30, 40], 0, 1, 1, 4), 4, Cursor([0, 0, 0, 0], 0));
  }
}
