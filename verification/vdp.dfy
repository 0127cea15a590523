/** The Agon VDP commands the player sends: the buffered-command API
    (`VDU 23,0,&A0`) and the audio API (`VDU 23,0,&85`).  Each C emitter
    (`clear_buffer`, `add_stream_to_buffer`, ...) is a pure function from its
    arguments to the bytes its `putch` calls append to the transport, and the
    six command shapes are collected in `Command` so that the transfer engines
    can be specified as command sequences whose wire form is `Serialize`.
    `DecodeAll` reads the wire back; the round-trip lemmas show the stream is
    unambiguous, so a property of the command sequence is a property of the bytes. */
module Vdp {
  import opened Bytes

  /** An append carries at most a 16-bit length's worth of bytes. */
  type Payload = s: seq<byte> | |s| <= 0xFFFF

  datatype Command =
    | Clear(bufferId: u16)
    | Append(bufferId: u16, payload: Payload)
    | MakeSample(bufferId: u16, format: byte)
    | Assign(sampleId: u16, channel: byte)
    | Enable(channel: byte)
    | Play(channel: byte, volume: byte, frequency: u16, duration: u16)

  /** The fixed play frequency `play_sample` sends. */
  const PLAY_FREQUENCY: u16 := 100

  /** `clear_buffer`: VDU 23,0,&A0,id;2 */
  function ClearBuffer(id: u16): (r: seq<byte>)
    ensures r == [23, 0, 0xA0, id % 0x100, id / 0x100, 2]
  {
    [23, 0, 0xA0] + Le16Bytes(id) + [2]
  }

  /** `add_stream_to_buffer`: VDU 23,0,&A0,id;0,size; followed by the first
      `size` bytes of `content`.  Both transport paths (`fast_vdu` when
      `quick`, `mos_puts` otherwise) deliver exactly those bytes in order. */
  function AddStreamToBuffer(id: u16, content: seq<byte>, size: u16, quick: bool): (r: seq<byte>)
    requires size <= |content|
    ensures |r| == 8 + size
    ensures r[..8] == [23, 0, 0xA0, id % 0x100, id / 0x100, 0, size % 0x100, size / 0x100]
    ensures r[8..] == content[..size]
  {
    [23, 0, 0xA0] + Le16Bytes(id) + [0] + Le16Bytes(size) + content[..size]
  }

  /** `sample_from_buffer`: VDU 23,0,&85,0,5,2,id;format */
  function SampleFromBuffer(id: u16, format: byte): (r: seq<byte>)
    ensures r == [23, 0, 0x85, 0, 5, 2, id % 0x100, id / 0x100, format]
  {
    [23, 0, 0x85, 0, 5, 2] + Le16Bytes(id) + [format]
  }

  /** `assign_sample_to_channel`: VDU 23,0,&85,channel,4,8,sample; */
  function AssignSampleToChannel(sampleId: u16, channel: byte): (r: seq<byte>)
    ensures r == [23, 0, 0x85, channel, 4, 8, sampleId % 0x100, sampleId / 0x100]
  {
    [23, 0, 0x85, channel, 4, 8] + Le16Bytes(sampleId)
  }

  /** `enable_channel`: VDU 23,0,&85,channel,8 */
  function EnableChannel(channel: byte): (r: seq<byte>)
    ensures r == [23, 0, 0x85, channel, 8]
  {
    [23, 0, 0x85, channel, 8]
  }

  /** The play-note frame that closes `play_sample`:
      VDU 23,0,&85,channel,0,volume,frequency;duration; */
  function PlayNote(channel: byte, volume: byte, frequency: u16, duration: u16): (r: seq<byte>)
    ensures r == [23, 0, 0x85, channel, 0, volume, frequency % 0x100, frequency / 0x100,
                  duration % 0x100, duration / 0x100]
  {
    [23, 0, 0x85, channel, 0, volume] + Le16Bytes(frequency) + Le16Bytes(duration)
  }

  /** The three commands `play_sample` is made of. */
  function PlayCommands(sampleId: u16, channel: byte, volume: byte, duration: u16): seq<Command>
  {
    [Assign(sampleId, channel), Enable(channel), Play(channel, volume, PLAY_FREQUENCY, duration)]
  }

  /** `play_sample`: assign the sample, enable the channel, then play at
      frequency 100 with the given volume and duration. */
  function PlaySample(sampleId: u16, channel: byte, volume: byte, duration: u16): (r: seq<byte>)
    ensures r == [23, 0, 0x85, channel, 4, 8, sampleId % 0x100, sampleId / 0x100]
               + [23, 0, 0x85, channel, 8]
               + [23, 0, 0x85, channel, 0, volume, 100, 0, duration % 0x100, duration / 0x100]
  {
    AssignSampleToChannel(sampleId, channel) + EnableChannel(channel)
    + PlayNote(channel, volume, PLAY_FREQUENCY, duration)
  }

  /** `play_sample` is exactly the serialization of its three commands. */
  lemma PlaySampleSerializes(sampleId: u16, channel: byte, volume: byte, duration: u16)
    ensures PlaySample(sampleId, channel, volume, duration)
         == Serialize(PlayCommands(sampleId, channel, volume, duration))
  {
    var cs := PlayCommands(sampleId, channel, volume, duration);
    assert Serialize(cs[2..]) == Encode(cs[2]) + Serialize(cs[3..]);
    assert Serialize(cs[1..]) == Encode(cs[1]) + Serialize(cs[2..]);
  }

  /** The bytes one command puts on the wire. */
  function Encode(c: Command): seq<byte>
  {
    match c
    case Clear(id) => ClearBuffer(id)
    case Append(id, p) => AddStreamToBuffer(id, p, |p|, false)
    case MakeSample(id, f) => SampleFromBuffer(id, f)
    case Assign(s, ch) => AssignSampleToChannel(s, ch)
    case Enable(ch) => EnableChannel(ch)
    case Play(ch, v, f, d) => PlayNote(ch, v, f, d)
  }

  function Serialize(cs: seq<Command>): seq<byte>
  {
    if |cs| == 0 then [] else Encode(cs[0]) + Serialize(cs[1..])
  }

  lemma {:induction false} SerializeConcat(a: seq<Command>, b: seq<Command>)
    ensures Serialize(a + b) == Serialize(a) + Serialize(b)
    decreases |a|
  {
    if |a| == 0 {
      assert a + b == b;
    } else {
      assert (a + b)[1..] == a[1..] + b;
      SerializeConcat(a[1..], b);
    }
  }

  // ---- reading the wire back ----

  datatype Decoded = Decoded(cmd: Command, size: nat)

  /** Recognises one command frame at the head of `s` and says how many bytes it spans. */
  function DecodeCommand(s: seq<byte>): (r: Option<Decoded>)
    ensures r.Some? ==> 0 < r.value.size <= |s|
  {
    if |s| < 5 || s[0] != 23 || s[1] != 0 then None
    else if s[2] == 0xA0 then
      if |s| < 6 then None
      else if s[5] == 2 then Some(Decoded(Clear(LE16(s, 3)), 6))
      else if s[5] == 0 && |s| >= 8 && 8 + LE16(s, 6) <= |s| then
        Some(Decoded(Append(LE16(s, 3), s[8 .. 8 + LE16(s, 6)]), 8 + LE16(s, 6)))
      else None
    else if s[2] == 0x85 then
      if s[4] == 5 && s[3] == 0 && |s| >= 9 && s[5] == 2 then
        Some(Decoded(MakeSample(LE16(s, 6), s[8]), 9))
      else if s[4] == 4 && |s| >= 8 && s[5] == 8 then
        Some(Decoded(Assign(LE16(s, 6), s[3]), 8))
      else if s[4] == 8 then Some(Decoded(Enable(s[3]), 5))
      else if s[4] == 0 && |s| >= 10 then
        Some(Decoded(Play(s[3], s[5], LE16(s, 6), LE16(s, 8)), 10))
      else None
    else None
  }

  function DecodeAll(s: seq<byte>): Option<seq<Command>>
    decreases |s|
  {
    if |s| == 0 then Some([])
    else match DecodeCommand(s)
      case None => None
      case Some(d) =>
        match DecodeAll(s[d.size..])
        case None => None
        case Some(rest) => Some([d.cmd] + rest)
  }

  /** Every command frame is recognised, whatever follows it. */
  lemma DecodeEncode(c: Command, rest: seq<byte>)
    ensures DecodeCommand(Encode(c) + rest) == Some(Decoded(c, |Encode(c)|))
  {
    var s := Encode(c) + rest;
    match c
    case Clear(id) =>
    case Append(id, p) =>
      assert s[8 .. 8 + |p|] == p;
    case MakeSample(id, f) =>
    case Assign(sid, ch) =>
    case Enable(ch) =>
    case Play(ch, v, f, d) =>
  }

  /** The decoder accepts only canonical frames: what it recognises is exactly
      the encoding of the command it returns. */
  lemma EncodeDecode(s: seq<byte>)
    requires DecodeCommand(s).Some?
    ensures Encode(DecodeCommand(s).value.cmd) == s[..DecodeCommand(s).value.size]
  {
    LE16Split(s, 3);
    if s[2] == 0xA0 {
      if s[5] == 0 {
        LE16Split(s, 6);
        var d := DecodeCommand(s).value;
        assert s[..d.size] == s[..8] + s[8 .. d.size];
      }
    } else {
      LE16Split(s, 6);
      if s[4] == 0 {
        LE16Split(s, 8);
      }
    }
  }

  /** A 16-bit field splits back into the two bytes it was read from. */
  lemma LE16Split(s: seq<byte>, i: nat)
    ensures i + 2 <= |s| ==> LE16(s, i) % 0x100 == s[i] && LE16(s, i) / 0x100 == s[i + 1]
  {
  }

  /** A serialized command stream decodes to the commands it was made from. */
  lemma {:induction false} DecodeSerialize(cs: seq<Command>)
    ensures DecodeAll(Serialize(cs)) == Some(cs)
    decreases |cs|
  {
    if |cs| > 0 {
      var s := Serialize(cs);
      DecodeEncode(cs[0], Serialize(cs[1..]));
      assert s[|Encode(cs[0])|..] == Serialize(cs[1..]);
      DecodeSerialize(cs[1..]);
      assert [cs[0]] + cs[1..] == cs;
    }
  }

  /** Conversely, any byte stream the decoder accepts is the serialization of
      what it decodes to: there is exactly one reading of the wire. */
  lemma {:induction false} SerializeDecode(s: seq<byte>)
    requires DecodeAll(s).Some?
    ensures Serialize(DecodeAll(s).value) == s
    decreases |s|
  {
    if |s| > 0 {
      DecodeAllStep(s);
      var d := DecodeCommand(s).value;
      var tail := s[d.size..];
      EncodeDecode(s);
      SerializeDecode(tail);
      SerializeCons(d.cmd, DecodeAll(tail).value);
      assert s == s[..d.size] + tail;
    }
  }

  /** One step of the decoder: the first frame, then the rest. */
  lemma DecodeAllStep(s: seq<byte>)
    requires |s| > 0 && DecodeAll(s).Some?
    ensures DecodeCommand(s).Some?
    ensures DecodeAll(s[DecodeCommand(s).value.size..]).Some?
    ensures DecodeAll(s).value
         == [DecodeCommand(s).value.cmd] + DecodeAll(s[DecodeCommand(s).value.size..]).value
  {
  }

  lemma SerializeCons(c: Command, cs: seq<Command>)
    ensures Serialize([c] + cs) == Encode(c) + Serialize(cs)
  {
    assert ([c] + cs)[1..] == cs;
  }

  /** An `Append` command is what `add_stream_to_buffer` sends for the first
      `size` bytes of its buffer, on either transport path. */
  lemma AppendEncoding(id: u16, content: seq<byte>, size: u16, quick: bool)
    requires size <= |content|
    ensures Serialize([Append(id, content[..size])]) == AddStreamToBuffer(id, content, size, quick)
  {
    var c := Append(id, content[..size]);
    assert Serialize([c]) == Encode(c) + Serialize([]);
    assert content[..size][..size] == content[..size];
  }

  // ---- views of a command stream ----

  /** The `Append` commands of a stream, in order. */
  function Appends(cs: seq<Command>): (r: seq<Command>)
  {
    if |cs| == 0 then []
    else (if cs[0].Append? then [cs[0]] else []) + Appends(cs[1..])
  }

  /** All bytes appended by a stream, in order: what the peripheral buffer
      accumulates. */
  function AppendedBytes(cs: seq<Command>): seq<byte>
  {
    if |cs| == 0 then []
    else (if cs[0].Append? then cs[0].payload else []) + AppendedBytes(cs[1..])
  }

  lemma AppendsConcat(a: seq<Command>, b: seq<Command>)
    ensures Appends(a + b) == Appends(a) + Appends(b)
    ensures AppendedBytes(a + b) == AppendedBytes(a) + AppendedBytes(b)
  {
    AppendCommandsConcat(a, b);
    AppendedBytesConcat(a, b);
  }

  lemma {:induction false} AppendCommandsConcat(a: seq<Command>, b: seq<Command>)
    ensures Appends(a + b) == Appends(a) + Appends(b)
    decreases |a|
  {
    if |a| == 0 {
      assert a + b == b;
    } else {
      assert (a + b)[0] == a[0];
      assert (a + b)[1..] == a[1..] + b;
      AppendCommandsConcat(a[1..], b);
    }
  }

  lemma {:induction false} AppendedBytesConcat(a: seq<Command>, b: seq<Command>)
    ensures AppendedBytes(a + b) == AppendedBytes(a) + AppendedBytes(b)
    decreases |a|
  {
    if |a| == 0 {
      assert a + b == b;
    } else {
      assert (a + b)[0] == a[0];
      assert (a + b)[1..] == a[1..] + b;
      AppendedBytesConcat(a[1..], b);
    }
  }
}
