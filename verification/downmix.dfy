/** `convertStereoToMono`: interleaved 8-bit stereo frames (left, right, left,
    right, ...) reduced to one byte per frame, the floor of the pair's mean. */
module Downmix {
  import opened Bytes

  /** `(l + r) / 2` on unsigned bytes: C promotes both to `int`, so the sum
      cannot wrap and the quotient is a floor. */
  function Average(l: byte, r: byte): (m: byte)
    ensures 2 * m as int <= l as int + r as int < 2 * m as int + 2
    ensures Min(l, r) <= m as int <= Max(l, r)
  {
    (l as int + r as int) / 2
  }

  /** The first `frames` frames of `stereo`, each averaged to one sample. */
  function ConvertStereoToMono(stereo: seq<byte>, frames: nat): (mono: seq<byte>)
    requires 2 * frames <= |stereo|
    ensures |mono| == frames
    ensures forall i :: 0 <= i < frames ==> mono[i] == Average(stereo[2 * i], stereo[2 * i + 1])
    decreases frames
  {
    if frames == 0 then []
    else
      var k := frames - 1;
      ConvertStereoToMono(stereo, k) + [Average(stereo[2 * k], stereo[2 * k + 1])]
  }

  /** Each output sample lies between the two samples it was made from. */
  lemma DownmixBetween(stereo: seq<byte>, frames: nat, i: nat)
    requires 2 * frames <= |stereo| && i < frames
    ensures Min(stereo[2 * i], stereo[2 * i + 1]) <= ConvertStereoToMono(stereo, frames)[i]
              <= Max(stereo[2 * i], stereo[2 * i + 1])
  {
  }

  /** Two channels that carry the same signal. */
  function Interleave(mono: seq<byte>): (stereo: seq<byte>)
    ensures |stereo| == 2 * |mono|
  {
    if |mono| == 0 then [] else [mono[0], mono[0]] + Interleave(mono[1..])
  }

  /** Downmixing a stereo stream whose channels are identical gives back the
      single channel: the downmix is a left inverse of duplication. */
  lemma {:induction false} DownmixOfInterleave(mono: seq<byte>)
    ensures ConvertStereoToMono(Interleave(mono), |mono|) == mono
  {
    var s := Interleave(mono);
    InterleaveAt(mono);
    var d := ConvertStereoToMono(s, |mono|);
    forall i | 0 <= i < |mono|
      ensures d[i] == mono[i]
    {
      assert s[2 * i] == mono[i] && s[2 * i + 1] == mono[i];
    }
  }

  lemma {:induction false} InterleaveAt(mono: seq<byte>)
    ensures forall i :: 0 <= i < |mono| ==>
              Interleave(mono)[2 * i] == mono[i] && Interleave(mono)[2 * i + 1] == mono[i]
    decreases |mono|
  {
    if |mono| > 0 {
      InterleaveAt(mono[1..]);
      var s := Interleave(mono);
      assert s == [mono[0], mono[0]] + Interleave(mono[1..]);
      forall i | 0 < i < |mono|
        ensures s[2 * i] == mono[i] && s[2 * i + 1] == mono[i]
      {
        assert s[2 * i] == Interleave(mono[1..])[2 * (i - 1)];
        assert s[2 * i + 1] == Interleave(mono[1..])[2 * (i - 1) + 1];
      }
    }
  }

  /** Downmixing whole frames distributes over concatenation, so a chunked
      downmix equals the downmix of the whole stream. */
  lemma DownmixConcat(a: seq<byte>, fa: nat, b: seq<byte>, fb: nat)
    requires |a| == 2 * fa && 2 * fb <= |b|
    ensures ConvertStereoToMono(a + b, fa + fb)
         == ConvertStereoToMono(a, fa) + ConvertStereoToMono(b, fb)
  {
    var l := ConvertStereoToMono(a + b, fa + fb);
    var r := ConvertStereoToMono(a, fa) + ConvertStereoToMono(b, fb);
    var la := ConvertStereoToMono(a, fa);
    var lb := ConvertStereoToMono(b, fb);
    forall i | 0 <= i < fa + fb
      ensures l[i] == r[i]
    {
      var ab := a + b;
      assert l[i] == Average(ab[2 * i], ab[2 * i + 1]);
      if i < fa {
        assert ab[2 * i] == a[2 * i] && ab[2 * i + 1] == a[2 * i + 1];
        assert r[i] == la[i];
      } else {
        var j := i - fa;
        assert 2 * i == |a| + 2 * j;
        assert ab[2 * i] == b[2 * j] && ab[2 * i + 1] == b[2 * j + 1];
        assert r[i] == lb[j];
      }
    }
  }

  /** Only the first `2 * frames` bytes are read. */
  lemma DownmixPrefix(s: seq<byte>, frames: nat, t: seq<byte>)
    requires 2 * frames <= |s| && 2 * frames <= |t| && s[..2 * frames] == t[..2 * frames]
    ensures ConvertStereoToMono(s, frames) == ConvertStereoToMono(t, frames)
  {
    var l := ConvertStereoToMono(s, frames);
    var r := ConvertStereoToMono(t, frames);
    forall i | 0 <= i < frames
      ensures l[i] == r[i]
    {
      assert s[2 * i] == s[..2 * frames][2 * i] && s[2 * i + 1] == s[..2 * frames][2 * i + 1];
      assert t[2 * i] == t[..2 * frames][2 * i] && t[2 * i + 1] == t[..2 * frames][2 * i + 1];
    }
  }

  /** Frames (10,20) and (0,255) give 15 and 127: the mean is floored. */
  lemma DownmixExample()
    ensures ConvertStereoToMono([10, 20, 0, 255], 2) == [15, 127]
  {
  }
}
