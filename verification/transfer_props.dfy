/** What the transfer engines deliver: the peripheral buffer receives exactly
    the sample data (mono) or its downmix (stereo), in `ceil(size / chunk)`
    appends, between a clear and a conversion; streaming delivers the same
    bytes as uploading, with the play command moved up behind the first chunk. */
module TransferProps {
  import opened Bytes
  import opened Vdp
  import opened Downmix
  import opened Transfer

  /** One chunk is one append to the engine's buffer for one or two
      channels, and nothing otherwise. */
  lemma ChunkIsOneAppend(id: u16, channels: u16, buf: seq<byte>, chunk: u16)
    requires chunk <= |buf|
    ensures var r := ChunkCommands(id, channels, buf, chunk);
      && (channels == 1 || channels == 2 ==> |r| == 1 && r[0].Append? && r[0].bufferId == id)
      && (channels != 1 && channels != 2 ==> r == [])
  {
  }

  /** The chunk loop only ever appends, always to the engine's buffer, and
      sends nothing for a channel count other than 1 or 2. */
  lemma {:induction false} LoopOnlyAppends(e: Engine, remaining: int, c: Cursor)
    requires e.chunkSize > 0 && |c.buf| == e.chunkSize && ReadsFit(e, remaining)
    ensures forall i :: 0 <= i < |TransferLoop(e, remaining, c)| ==>
              TransferLoop(e, remaining, c)[i].Append? && TransferLoop(e, remaining, c)[i].bufferId == e.id
    ensures e.channels != 1 && e.channels != 2 ==> TransferLoop(e, remaining, c) == []
    ensures remaining <= 0 ==> TransferLoop(e, remaining, c) == []
    decreases Max(remaining, 0)
  {
    if remaining > 0 {
      var chunk := ChunkLen(remaining, e.chunkSize);
      var n := NextRead(e, remaining, c);
      LoopOnlyAppends(e, remaining - chunk, n);
      var head := ChunkCommands(e.id, e.channels, n.buf, chunk);
      var tail := TransferLoop(e, remaining - chunk, n);
      ChunkIsOneAppend(e.id, e.channels, n.buf, chunk);
      var l := head + tail;
      assert TransferLoop(e, remaining, c) == l;
      forall i | 0 <= i < |l|
        ensures l[i].Append? && l[i].bufferId == e.id
      {
        if i >= |head| {
          assert l[i] == tail[i - |head|];
        } else {
          assert l[i] == head[0];
        }
      }
    }
  }

  /** For one or two channels the loop sends one append per chunk: the
      number of appends is the remaining count divided by the chunk size,
      rounded up. */
  lemma {:induction false} LoopCount(e: Engine, remaining: int, c: Cursor)
    requires e.chunkSize > 0 && |c.buf| == e.chunkSize && ReadsFit(e, remaining)
    requires e.channels == 1 || e.channels == 2
    ensures var k := |TransferLoop(e, remaining, c)|;
      remaining > 0 ==> (k - 1) * e.chunkSize < remaining <= k * e.chunkSize
    ensures remaining <= 0 ==> |TransferLoop(e, remaining, c)| == 0
    decreases Max(remaining, 0)
  {
    if remaining > 0 {
      var chunk := ChunkLen(remaining, e.chunkSize);
      var n := NextRead(e, remaining, c);
      LoopCount(e, remaining - chunk, n);
      var m := |TransferLoop(e, remaining - chunk, n)|;
      assert |TransferLoop(e, remaining, c)| == m + 1;
      if remaining > e.chunkSize {
        assert (m - 1) * e.chunkSize < remaining - e.chunkSize <= m * e.chunkSize;
        assert (m + 1) * e.chunkSize == m * e.chunkSize + e.chunkSize;
        assert m * e.chunkSize == (m - 1) * e.chunkSize + e.chunkSize;
      }
    }
  }

  /** One turn of the loop, as seen by the buffer: the chunk's bytes, then
      those of the rest of the loop. */
  lemma LoopStepAppended(e: Engine, remaining: int, c: Cursor)
    requires e.chunkSize > 0 && |c.buf| == e.chunkSize && ReadsFit(e, remaining) && remaining > 0
    ensures var chunk := ChunkLen(remaining, e.chunkSize);
      var n := NextRead(e, remaining, c);
      AppendedBytes(TransferLoop(e, remaining, c))
        == AppendedBytes(ChunkCommands(e.id, e.channels, n.buf, chunk))
           + AppendedBytes(TransferLoop(e, remaining - chunk, n))
  {
    var chunk := ChunkLen(remaining, e.chunkSize);
    var n := NextRead(e, remaining, c);
    AppendsConcat(ChunkCommands(e.id, e.channels, n.buf, chunk), TransferLoop(e, remaining - chunk, n));
  }

  /** The bytes one chunk appends: the chunk itself for mono, its downmix
      for stereo. */
  lemma ChunkAppended(id: u16, channels: u16, buf: seq<byte>, chunk: u16)
    requires chunk <= |buf|
    ensures channels == 1 ==> AppendedBytes(ChunkCommands(id, channels, buf, chunk)) == buf[..chunk]
    ensures channels == 2 ==>
      AppendedBytes(ChunkCommands(id, channels, buf, chunk)) == ConvertStereoToMono(buf, chunk / 2)
  {
    var r := ChunkCommands(id, channels, buf, chunk);
    if channels == 1 || channels == 2 {
      assert AppendedBytes(r) == r[0].payload + AppendedBytes(r[1..]);
      assert r[1..] == [];
    }
  }

  /** While the data lasts, each read of the loop fills the chunk from the
      current position and moves past it. */
  lemma FullRead(e: Engine, remaining: int, c: Cursor)
    requires e.chunkSize > 0 && |c.buf| == e.chunkSize && e.bytesPerSample == 1
    requires remaining > 0 && c.pos + remaining <= |e.src|
    ensures var chunk := ChunkLen(remaining, e.chunkSize);
      var n := NextRead(e, remaining, c);
      && n.pos == c.pos + chunk
      && n.buf[..chunk] == e.src[c.pos .. n.pos]
  {
    FreadDelivers(c, e.src, ChunkLen(remaining, e.chunkSize));
  }

  /** The first chunk of a mono loop over data that is present appends the
      chunk read from the file. */
  lemma MonoChunk(e: Engine, remaining: int, c: Cursor)
    requires e.chunkSize > 0 && |c.buf| == e.chunkSize
    requires e.channels == 1 && e.bytesPerSample == 1
    requires remaining > 0 && c.pos + remaining <= |e.src|
    ensures var chunk := ChunkLen(remaining, e.chunkSize);
      var n := NextRead(e, remaining, c);
      && n.pos == c.pos + chunk
      && AppendedBytes(ChunkCommands(e.id, e.channels, n.buf, chunk)) == e.src[c.pos .. n.pos]
  {
    var chunk := ChunkLen(remaining, e.chunkSize);
    var n := NextRead(e, remaining, c);
    FullRead(e, remaining, c);
    ChunkAppended(e.id, e.channels, n.buf, chunk);
  }

  /** The mono loop up to a given end of the data. */
  lemma {:induction false} MonoLoopTo(e: Engine, remaining: int, c: Cursor, end: nat)
    requires e.chunkSize > 0 && |c.buf| == e.chunkSize
    requires e.channels == 1 && e.bytesPerSample == 1
    requires remaining >= 0 && end == c.pos + remaining && end <= |e.src|
    ensures AppendedBytes(TransferLoop(e, remaining, c)) == e.src[c.pos .. end]
    decreases remaining
  {
    if remaining > 0 {
      var chunk := ChunkLen(remaining, e.chunkSize);
      var left := remaining - chunk;
      var n := NextRead(e, remaining, c);
      MonoChunk(e, remaining, c);
      MonoLoopTo(e, left, n, end);
      LoopStepAppended(e, remaining, c);
      SliceConcat(e.src, c.pos, n.pos, end);
    } else {
      assert TransferLoop(e, remaining, c) == [];
    }
  }

  /** A mono 8-bit loop over data that is all present delivers exactly that
      data to the peripheral buffer, whatever the chunk size. */
  lemma MonoLoopDelivers(e: Engine, remaining: int, c: Cursor)
    requires e.chunkSize > 0 && |c.buf| == e.chunkSize
    requires e.channels == 1 && e.bytesPerSample == 1
    requires remaining >= 0 && c.pos + remaining <= |e.src|
    ensures AppendedBytes(TransferLoop(e, remaining, c)) == e.src[c.pos .. c.pos + remaining]
  {
    MonoLoopTo(e, remaining, c, c.pos + remaining);
  }

  /** Downmixing a stretch of the data is downmixing its first whole
      frames and then the rest. */
  lemma DownmixJoin(s: seq<byte>, p: nat, q: nat, r: nat, fa: nat, fb: nat, half: nat)
    requires p <= q <= r <= |s| && q - p == 2 * fa && 2 * fb <= r - q && fa + fb == half
    ensures ConvertStereoToMono(s[p..r], half)
         == ConvertStereoToMono(s[p..q], fa) + ConvertStereoToMono(s[q..r], fb)
  {
    SliceConcat(s, p, q, r);
    DownmixConcat(s[p..q], fa, s[q..r], fb);
  }

  /** The first chunk of a stereo loop over data that is present appends
      the downmix of the chunk read from the file. */
  lemma StereoChunk(e: Engine, remaining: int, c: Cursor)
    requires e.chunkSize > 0 && |c.buf| == e.chunkSize
    requires e.channels == 2 && e.bytesPerSample == 1
    requires remaining > 0 && c.pos + remaining <= |e.src|
    ensures var chunk := ChunkLen(remaining, e.chunkSize);
      var n := NextRead(e, remaining, c);
      && n.pos == c.pos + chunk
      && AppendedBytes(ChunkCommands(e.id, e.channels, n.buf, chunk))
         == ConvertStereoToMono(e.src[c.pos .. n.pos], chunk / 2)
  {
    var chunk := ChunkLen(remaining, e.chunkSize);
    var n := NextRead(e, remaining, c);
    FullRead(e, remaining, c);
    ChunkAppended(e.id, e.channels, n.buf, chunk);
    var a := e.src[c.pos .. n.pos];
    assert n.buf[..2 * (chunk / 2)] == a[..2 * (chunk / 2)];
    DownmixPrefix(n.buf, chunk / 2, a);
  }

  /** The stereo loop up to a given end of the data. */
  lemma {:induction false} StereoLoopTo(e: Engine, remaining: int, c: Cursor, end: nat)
    requires e.chunkSize > 0 && |c.buf| == e.chunkSize && e.chunkSize % 2 == 0
    requires e.channels == 2 && e.bytesPerSample == 1
    requires remaining >= 0 && end == c.pos + remaining && end <= |e.src|
    ensures AppendedBytes(TransferLoop(e, remaining, c)) == ConvertStereoToMono(e.src[c.pos .. end], remaining / 2)
    decreases remaining
  {
    if remaining > 0 {
      var chunk := ChunkLen(remaining, e.chunkSize);
      var left := remaining - chunk;
      var n := NextRead(e, remaining, c);
      StereoChunk(e, remaining, c);
      StereoLoopTo(e, left, n, end);
      LoopStepAppended(e, remaining, c);
      if remaining > e.chunkSize {
        DownmixJoin(e.src, c.pos, n.pos, end, chunk / 2, left / 2, remaining / 2);
      } else {
        assert n.pos == end;
        assert TransferLoop(e, left, n) == [];
      }
    } else {
      assert TransferLoop(e, remaining, c) == [];
    }
  }

  /** A stereo 8-bit loop with an even chunk size over data that is all
      present delivers the downmix of the whole data: chunking does not
      change which bytes are paired. */
  lemma StereoLoopDownmixes(e: Engine, remaining: int, c: Cursor)
    requires e.chunkSize > 0 && |c.buf| == e.chunkSize && e.chunkSize % 2 == 0
    requires e.channels == 2 && e.bytesPerSample == 1
    requires remaining >= 0 && c.pos + remaining <= |e.src|
    ensures AppendedBytes(TransferLoop(e, remaining, c))
         == ConvertStereoToMono(e.src[c.pos .. c.pos + remaining], remaining / 2)
  {
    StereoLoopTo(e, remaining, c, c.pos + remaining);
  }

  /** However much of the data the file really holds, a mono loop sends
      exactly the remaining count of bytes: a short read leaves the rest of
      the chunk as it was and sends it all the same. */
  lemma {:induction false} MonoLoopLength(e: Engine, remaining: int, c: Cursor)
    requires e.chunkSize > 0 && |c.buf| == e.chunkSize && ReadsFit(e, remaining)
    requires e.channels == 1
    ensures |AppendedBytes(TransferLoop(e, remaining, c))| == Max(remaining, 0)
    decreases Max(remaining, 0)
  {
    if remaining > 0 {
      var chunk := ChunkLen(remaining, e.chunkSize);
      var n := NextRead(e, remaining, c);
      LoopStepAppended(e, remaining, c);
      ChunkAppended(e.id, e.channels, n.buf, chunk);
      MonoLoopLength(e, remaining - chunk, n);
    }
  }

  /** One turn of a mono 8-bit loop: the read delivers what is left of
      the chunk's worth of data, and the buffer receives the whole chunk as
      it then stands, then the rest of the loop. */
  lemma MonoReadStep(e: Engine, remaining: int, c: Cursor)
    requires e.chunkSize > 0 && |c.buf| == e.chunkSize
    requires e.channels == 1 && e.bytesPerSample == 1
    requires remaining > 0 && c.pos <= |e.src|
    ensures var chunk := ChunkLen(remaining, e.chunkSize);
      var n := NextRead(e, remaining, c);
      var got := Min(chunk, |e.src| - c.pos);
      && n.pos == c.pos + got
      && n.buf[..got] == e.src[c.pos .. n.pos]
      && AppendedBytes(TransferLoop(e, remaining, c))
         == n.buf[..chunk] + AppendedBytes(TransferLoop(e, remaining - chunk, n))
  {
    var chunk := ChunkLen(remaining, e.chunkSize);
    var n := NextRead(e, remaining, c);
    FreadDelivers(c, e.src, chunk);
    LoopStepAppended(e, remaining, c);
    ChunkAppended(e.id, e.channels, n.buf, chunk);
  }

  /** Joining one chunk to the rest: if the chunk was read in full, the
      known prefix of the rest continues it; if not, the data ends inside
      the chunk. */
  lemma PrefixJoin<T>(s: seq<T>, p: nat, q: nat, b: seq<T>, chunk: nat, r: seq<T>, a: seq<T>,
                      got: nat, rem: nat, k: nat, k': nat)
    requires p <= |s| && 0 < chunk <= rem && chunk <= |b|
    requires got == Min(chunk, |s| - p) && q == p + got && b[..got] == s[p .. q]
    requires a == b[..chunk] + r
    requires k == Min(rem, |s| - p) && k' == Min(rem - chunk, |s| - q)
    requires k' <= |r| && r[..k'] == s[q .. q + k']
    ensures k <= |a| && a[..k] == s[p .. p + k]
  {
    PrefixOfConcat(b[..chunk], r, k);
    if got == chunk {
      SliceConcat(s, p, q, p + k);
    }
  }

  /** A mono 8-bit loop whose data may end before the count does: the
      first appended bytes are the data that is there, up to the count. */
  lemma {:induction false} MonoLoopPrefix(e: Engine, remaining: int, c: Cursor)
    requires e.chunkSize > 0 && |c.buf| == e.chunkSize
    requires e.channels == 1 && e.bytesPerSample == 1
    requires remaining >= 0 && c.pos <= |e.src|
    ensures var k := Min(remaining, |e.src| - c.pos);
      var a := AppendedBytes(TransferLoop(e, remaining, c));
      k <= |a| && a[..k] == e.src[c.pos .. c.pos + k]
    decreases remaining
  {
    if remaining > 0 {
      var chunk := ChunkLen(remaining, e.chunkSize);
      var n := NextRead(e, remaining, c);
      MonoReadStep(e, remaining, c);
      MonoLoopPrefix(e, remaining - chunk, n);
      PrefixJoin(e.src, c.pos, n.pos, n.buf, chunk, AppendedBytes(TransferLoop(e, remaining - chunk, n)),
                 AppendedBytes(TransferLoop(e, remaining, c)), Min(chunk, |e.src| - c.pos), remaining,
                 Min(remaining, |e.src| - c.pos), Min(remaining - chunk, |e.src| - n.pos));
    } else {
      assert e.src[c.pos .. c.pos] == [];
    }
  }

  /** The frames a stereo loop sends: for each chunk, half its length,
      rounded down. */
  function StereoFrames(remaining: int, cs: u16): nat
    requires cs > 0
    decreases Max(remaining, 0)
  {
    if remaining <= 0 then 0
    else
      var chunk := ChunkLen(remaining, cs);
      chunk / 2 + StereoFrames(remaining - chunk, cs)
  }

  /** Whole chunks contribute half the chunk size each, rounded down, and
      the last partial chunk half of what is left: an odd chunk size drops
      one byte per whole chunk. */
  lemma {:induction false} StereoFramesClosed(remaining: nat, cs: u16)
    requires cs > 0
    ensures StereoFrames(remaining, cs) == (remaining / cs) * (cs / 2) + (remaining % cs) / 2
    decreases remaining
  {
    if remaining > cs {
      StereoFramesClosed(remaining - cs, cs);
      DivStep(remaining, cs);
      MulPred(remaining / cs, cs / 2);
    } else if remaining == cs {
      DivUnique(remaining, cs, 1, 0);
      assert StereoFrames(0, cs) == 0;
    } else {
      DivUnique(remaining, cs, 0, remaining);
    }
  }

  /** With an even chunk size, a stereo loop sends half the count. */
  lemma StereoFramesEven(remaining: nat, cs: u16)
    requires cs > 0 && cs % 2 == 0
    ensures StereoFrames(remaining, cs) == remaining / 2
  {
    StereoFramesClosed(remaining, cs);
    HalfOfEven(remaining, cs);
  }

  /** However much of the data the file really holds, each turn of a stereo
      loop sends half its chunk, rounded down. */
  lemma {:induction false} StereoLoopLength(e: Engine, remaining: int, c: Cursor)
    requires e.chunkSize > 0 && |c.buf| == e.chunkSize && ReadsFit(e, remaining)
    requires e.channels == 2
    ensures |AppendedBytes(TransferLoop(e, remaining, c))| == StereoFrames(remaining, e.chunkSize)
    decreases Max(remaining, 0)
  {
    if remaining > 0 {
      var chunk := ChunkLen(remaining, e.chunkSize);
      var n := NextRead(e, remaining, c);
      LoopStepAppended(e, remaining, c);
      ChunkAppended(e.id, e.channels, n.buf, chunk);
      StereoLoopLength(e, remaining - chunk, n);
    }
  }

  /** Nothing to send (a zero size, or a size whose low 24 bits read as a
      negative `int24_t`): the upload clears the buffer and converts it. */
  lemma UploadNothing(e: Engine, dataSize: u32, scratch: seq<byte>)
    requires e.chunkSize > 0 && |scratch| == e.chunkSize && ReadsFit(e, Int24(dataSize))
    requires Int24(dataSize) <= 0
    ensures UploadCommands(e, dataSize, scratch) == [Clear(e.id), MakeSample(e.id, 1)]
  {
  }

  /** The data size reaches the loop through `int24_t`: 8 MiB reads as
      negative and uploads nothing, and 16 MiB plus 5 bytes uploads 5 bytes. */
  lemma UploadSizeWraps(e: Engine, scratch: seq<byte>)
    requires e.chunkSize > 0 && |scratch| == e.chunkSize && e.bytesPerSample <= 1
    ensures UploadCommands(e, 0x80_0000, scratch) == [Clear(e.id), MakeSample(e.id, 1)]
    ensures Int24(0x100_0005) == 5
  {
    assert Int24(0x80_0000) == -0x80_0000;
    assert Int24(0x100_0005) == 5;
  }

  /** An upload is a clear, then appends to the same buffer only, then one
      conversion of that buffer. */
  lemma UploadShape(e: Engine, dataSize: u32, scratch: seq<byte>)
    requires e.chunkSize > 0 && |scratch| == e.chunkSize && ReadsFit(e, Int24(dataSize))
    ensures var u := UploadCommands(e, dataSize, scratch);
      && |u| >= 2 && u[0] == Clear(e.id) && u[|u| - 1] == MakeSample(e.id, 1)
      && forall i :: 0 < i < |u| - 1 ==> u[i].Append? && u[i].bufferId == e.id
  {
    var l := TransferLoop(e, Int24(dataSize), Cursor(scratch, 0));
    LoopOnlyAppends(e, Int24(dataSize), Cursor(scratch, 0));
    var u := UploadCommands(e, dataSize, scratch);
    forall i | 0 < i < |u| - 1
      ensures u[i].Append? && u[i].bufferId == e.id
    {
      assert u[i] == l[i - 1];
    }
  }

  /** A stream is a clear, the first chunk, the conversion, the three play
      commands, and then only appends to the same buffer. */
  lemma StreamShape(e: Engine, dataSize: u32, scratch: seq<byte>,
                    channel: byte, volume: byte, duration: u16)
    requires e.chunkSize > 0 && |scratch| == e.chunkSize && ReadsFit(e, Int24(dataSize))
    requires Int24(dataSize) >= 0
    requires e.channels == 1 || e.channels == 2
    ensures var s := StreamCommands(e, dataSize, scratch, channel, volume, duration);
      && |s| >= 6 && s[0] == Clear(e.id) && s[1].Append? && s[1].bufferId == e.id
      && s[2] == MakeSample(e.id, 1) && s[3..6] == PlayCommands(e.id, channel, volume, duration)
      && forall i :: 6 <= i < |s| ==> s[i].Append? && s[i].bufferId == e.id
  {
    var remaining := Int24(dataSize);
    var chunk := ChunkLen(remaining, e.chunkSize);
    var n := NextRead(e, remaining, Cursor(scratch, 0));
    var l := TransferLoop(e, remaining - chunk, n);
    LoopOnlyAppends(e, remaining - chunk, n);
    var s := StreamCommands(e, dataSize, scratch, channel, volume, duration);
    var front := [Clear(e.id)] + ChunkCommands(e.id, e.channels, n.buf, chunk) + [MakeSample(e.id, 1)]
                 + PlayCommands(e.id, channel, volume, duration);
    assert |front| == 6;
    assert s == front + l;
    forall i | 6 <= i < |s|
      ensures s[i].Append? && s[i].bufferId == e.id
    {
      assert s[i] == l[i - 6];
    }
  }

  /** Commands other than appends add nothing to the buffer. */
  lemma {:induction false} NoAppends(cs: seq<Command>)
    requires forall i :: 0 <= i < |cs| ==> !cs[i].Append?
    ensures Appends(cs) == [] && AppendedBytes(cs) == []
    decreases |cs|
  {
    if |cs| > 0 {
      NoAppends(cs[1..]);
    }
  }

  /** A single command other than an append adds nothing to the buffer. */
  lemma Silent(c: Command)
    requires !c.Append?
    ensures Appends([c]) == [] && AppendedBytes([c]) == []
  {
  }

  /** Commands that append nothing around a stream leave its appends as
      they are. */
  lemma AppendsAround(a: seq<Command>, m: seq<Command>, b: seq<Command>)
    requires Appends(a) == [] && AppendedBytes(a) == []
    requires Appends(b) == [] && AppendedBytes(b) == []
    ensures Appends(a + m + b) == Appends(m) && AppendedBytes(a + m + b) == AppendedBytes(m)
  {
    AppendsConcat(a, m);
    AppendsConcat(a + m, b);
  }

  /** A stream's appends are its first chunk's followed by the loop's. */
  lemma StreamAppends(e: Engine, dataSize: u32, scratch: seq<byte>,
                      channel: byte, volume: byte, duration: u16)
    requires e.chunkSize > 0 && |scratch| == e.chunkSize && ReadsFit(e, Int24(dataSize))
    requires Int24(dataSize) >= 0
    ensures var remaining := Int24(dataSize);
      var chunk := ChunkLen(remaining, e.chunkSize);
      var n := NextRead(e, remaining, Cursor(scratch, 0));
      var s := StreamCommands(e, dataSize, scratch, channel, volume, duration);
      && Appends(s) == Appends(ChunkCommands(e.id, e.channels, n.buf, chunk))
                       + Appends(TransferLoop(e, remaining - chunk, n))
      && AppendedBytes(s) == AppendedBytes(ChunkCommands(e.id, e.channels, n.buf, chunk))
                             + AppendedBytes(TransferLoop(e, remaining - chunk, n))
  {
    var remaining := Int24(dataSize);
    var chunk := ChunkLen(remaining, e.chunkSize);
    var n := NextRead(e, remaining, Cursor(scratch, 0));
    var first := ChunkCommands(e.id, e.channels, n.buf, chunk);
    var play := PlayCommands(e.id, channel, volume, duration);
    var rest := TransferLoop(e, remaining - chunk, n);
    PlayHasNoAppends(e.id, channel, volume, duration);
    assert StreamCommands(e, dataSize, scratch, channel, volume, duration)
        == StreamOrder(e.id, first, play, rest);
    StreamOrderAppends(e.id, first, play, rest);
  }

  /** The play command carries none of the audio. */
  lemma PlayHasNoAppends(id: u16, channel: byte, volume: byte, duration: u16)
    ensures Appends(PlayCommands(id, channel, volume, duration)) == []
    ensures AppendedBytes(PlayCommands(id, channel, volume, duration)) == []
  {
    var play := PlayCommands(id, channel, volume, duration);
    Silent(play[0]);
    Silent(play[1]);
    Silent(play[2]);
    assert play == [play[0]] + [play[1]] + [play[2]];
    AppendsConcat([play[0]] + [play[1]], [play[2]]);
    AppendsConcat([play[0]], [play[1]]);
  }

  /** In the streaming order, only the chunks contribute appends. */
  lemma StreamOrderAppends(id: u16, first: seq<Command>, play: seq<Command>, rest: seq<Command>)
    requires Appends(play) == [] && AppendedBytes(play) == []
    ensures Appends(StreamOrder(id, first, play, rest)) == Appends(first) + Appends(rest)
    ensures AppendedBytes(StreamOrder(id, first, play, rest))
         == AppendedBytes(first) + AppendedBytes(rest)
  {
    var clear: seq<Command> := [Clear(id)];
    var make: seq<Command> := [MakeSample(id, 1)];
    Silent(Clear(id));
    Silent(MakeSample(id, 1));
    AppendsConcat(clear + first + make + play, rest);
    AppendsConcat(clear + first + make, play);
    AppendsAround(clear, first, make);
  }

  /** An upload's appends are the loop's. */
  lemma UploadAppends(e: Engine, dataSize: u32, scratch: seq<byte>)
    requires e.chunkSize > 0 && |scratch| == e.chunkSize && ReadsFit(e, Int24(dataSize))
    ensures Appends(UploadCommands(e, dataSize, scratch))
         == Appends(TransferLoop(e, Int24(dataSize), Cursor(scratch, 0)))
    ensures AppendedBytes(UploadCommands(e, dataSize, scratch))
         == AppendedBytes(TransferLoop(e, Int24(dataSize), Cursor(scratch, 0)))
  {
    var loop := TransferLoop(e, Int24(dataSize), Cursor(scratch, 0));
    Silent(Clear(e.id));
    Silent(MakeSample(e.id, 1));
    AppendsAround([Clear(e.id)], loop, [MakeSample(e.id, 1)]);
  }

  /** Streaming and uploading deliver the same bytes to the buffer; they
      send the same appends except that a stream of nothing still sends its
      (empty) first chunk. */
  lemma StreamDeliversAsUpload(e: Engine, dataSize: u32, scratch: seq<byte>,
                               channel: byte, volume: byte, duration: u16)
    requires e.chunkSize > 0 && |scratch| == e.chunkSize && ReadsFit(e, Int24(dataSize))
    requires Int24(dataSize) >= 0
    ensures AppendedBytes(StreamCommands(e, dataSize, scratch, channel, volume, duration))
         == AppendedBytes(UploadCommands(e, dataSize, scratch))
    ensures Int24(dataSize) > 0 ==>
      Appends(StreamCommands(e, dataSize, scratch, channel, volume, duration))
        == Appends(UploadCommands(e, dataSize, scratch))
  {
    var remaining := Int24(dataSize);
    var chunk := ChunkLen(remaining, e.chunkSize);
    var c := Cursor(scratch, 0);
    var n := NextRead(e, remaining, c);
    var first := ChunkCommands(e.id, e.channels, n.buf, chunk);
    var rest := TransferLoop(e, remaining - chunk, n);
    StreamAppends(e, dataSize, scratch, channel, volume, duration);
    UploadAppends(e, dataSize, scratch);
    if remaining > 0 {
      assert TransferLoop(e, remaining, c) == first + rest;
      AppendsConcat(first, rest);
    } else {
      assert TransferLoop(e, remaining, c) == [] && rest == [];
      assert AppendedBytes(first) == [] by {
        if e.channels == 1 || e.channels == 2 {
          assert first == [Append(e.id, [])];
        }
      }
    }
  }

  /** A file cut short: the read delivers two of four bytes and the append
      carries the two stale bytes that were already in the working buffer. */
  lemma TruncatedReadSendsStaleBytes()
    ensures var e := Engine([1, 2], 7, 1, 1, 4);
      TransferLoop(e, 4, Cursor([9, 9, 9, 9], 0)) == [Append(7, [1, 2, 9, 9])]
  {
    var e := Engine([1, 2], 7, 1, 1, 4);
    var c := Cursor([9, 9, 9, 9], 0);
    var n := NextRead(e, 4, c);
    assert n == Fread(c, [1, 2], 4);
    assert n.buf == [1, 2] + [9, 9];
    assert TransferLoop(e, 4, c) == ChunkCommands(7, 1, n.buf, 4) + TransferLoop(e, 0, n);
    assert n.buf[..4] == [1, 2, 9, 9];
  }

  /** With an odd chunk size a stereo chunk ends in the middle of a frame:
      chunks of 3 bytes over frames (0,2) (4,6) (8,10) pair 0 with 2 and then
      6 with 8, so the 3-frame downmix [1, 5, 9] arrives as [1, 7]. */
  lemma OddChunkMisalignsStereo()
    ensures var e := Engine([0, 2, 4, 6, 8, 10], 0, 2, 1, 3);
      AppendedBytes(TransferLoop(e, 6, Cursor([0, 0, 0], 0))) == [1, 7]
    ensures ConvertStereoToMono([0, 2, 4, 6, 8, 10], 3) == [1, 5, 9]
  {
    var src: seq<byte> := [0, 2, 4, 6, 8, 10];
    var e := Engine(src, 0, 2, 1, 3);
    var c := Cursor([0, 0, 0], 0);
    var n1 := NextRead(e, 6, c);
    assert n1 == Fread(c, src, 3);
    assert n1.buf == [0, 2, 4] + [];
    var n2 := NextRead(e, 3, n1);
    assert n2 == Fread(n1, src, 3);
    assert n2.buf == [6, 8, 10] + [];
    var x1 := ConvertStereoToMono(n1.buf, 1);
    assert x1[0] == 1;
    var x2 := ConvertStereoToMono(n2.buf, 1);
    assert x2[0] == 7;
    ChunkAppended(0, 2, n1.buf, 3);
    ChunkAppended(0, 2, n2.buf, 3);
    LoopStepAppended(e, 3, n1);
    assert TransferLoop(e, 0, n2) == [];
    assert AppendedBytes(TransferLoop(e, 3, n1)) == x2 + [];
    LoopStepAppended(e, 6, c);
    assert AppendedBytes(TransferLoop(e, 6, c)) == x1 + x2;
    var whole := ConvertStereoToMono(src, 3);
    assert |whole| == 3 && whole[0] == 1 && whole[1] == 5 && whole[2] == 9;
    assert whole == [whole[0], whole[1], whole[2]];
  }
}
