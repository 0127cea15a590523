/** Machine-level vocabulary shared by the whole model: the eZ80's fixed-width
    integer types, little-endian field access, the four-character tags of the
    RIFF/WAVE container, and the two's-complement wraps the C code relies on. */
module Bytes {

  type byte = x: int | 0 <= x < 0x100
  type u16 = x: int | 0 <= x < 0x1_0000
  type u32 = x: int | 0 <= x < 0x1_0000_0000
  type int16 = x: int | -0x8000 <= x < 0x8000

  datatype Option<T> = None | Some(value: T)

  function Min(a: int, b: int): int
  {
    if a <= b then a else b
  }

  function Max(a: int, b: int): int
  {
    if a <= b then b else a
  }

  /** Little-endian 16-bit field starting at byte `i`. */
  function LE16(s: seq<byte>, i: nat): u16
    requires i + 2 <= |s|
  {
    s[i] as int + 0x100 * s[i + 1] as int
  }

  /** Little-endian 32-bit field starting at byte `i`. */
  function LE32(s: seq<byte>, i: nat): u32
    requires i + 4 <= |s|
  {
    s[i] as int + 0x100 * (s[i + 1] as int + 0x100 * (s[i + 2] as int + 0x100 * s[i + 3] as int))
  }

  /** The two bytes `write16bit` emits: least significant first. */
  function Le16Bytes(w: u16): (r: seq<byte>)
    ensures |r| == 2 && LE16(r, 0) == w
  {
    [w % 0x100, w / 0x100]
  }

  function Le32Bytes(w: u32): (r: seq<byte>)
    ensures |r| == 4 && LE32(r, 0) == w
  {
    var w1 := w / 0x100;
    var w2 := w1 / 0x100;
    [w % 0x100, w1 % 0x100, w2 % 0x100, w2 / 0x100]
  }

  /** Reading a field only looks at its own bytes. */
  lemma LE32Shift(a: seq<byte>, b: seq<byte>, i: nat)
    requires i + 4 <= |b|
    ensures LE32(a + b, |a| + i) == LE32(b, i)
  {
    assert (a + b)[|a| + i .. |a| + i + 4] == b[i .. i + 4];
    assert (a + b)[|a| + i] == b[i];
    assert (a + b)[|a| + i + 1] == b[i + 1];
    assert (a + b)[|a| + i + 2] == b[i + 2];
    assert (a + b)[|a| + i + 3] == b[i + 3];
  }

  /** A slice is the concatenation of its two halves. */
  lemma SliceConcat<T>(s: seq<T>, i: nat, j: nat, k: nat)
    requires i <= j <= k <= |s|
    ensures s[i..k] == s[i..j] + s[j..k]
  {
  }

  /** The first `n` elements of a suffix are a slice of the whole. */
  lemma SuffixPrefix<T>(s: seq<T>, i: nat, n: nat)
    requires i + n <= |s|
    ensures s[i..][..n] == s[i..][0..n] == s[i .. i + n]
  {
  }

  /** A prefix of a concatenation: the first part and a prefix of the
      second, or a prefix of the first part alone. */
  lemma PrefixOfConcat<T>(a: seq<T>, b: seq<T>, k: nat)
    requires k <= |a| + |b|
    ensures |a| <= k ==> (a + b)[..k] == a + b[..k - |a|]
    ensures k <= |a| ==> (a + b)[..k] == a[..k]
  {
  }

  /** A positive multiple of `d` is at least `d`. */
  lemma MulAtLeast(x: int, d: int)
    requires d > 0
    ensures x >= 1 ==> x * d >= d
  {
    if x >= 1 {
      assert x * d == d + (x - 1) * d;
    }
  }

  /** Quotient and remainder are the only ones with `r == q * d + m`. */
  lemma DivUnique(r: int, d: int, q: int, m: int)
    requires d > 0 && 0 <= m < d && r == q * d + m
    ensures r / d == q && r % d == m
  {
    var q0, m0 := r / d, r % d;
    assert (q - q0) * d == m0 - m;
    assert (q0 - q) * d == m - m0;
    MulAtLeast(q - q0, d);
    MulAtLeast(q0 - q, d);
  }

  /** Taking one divisor off a dividend lowers the quotient by one and keeps
      the remainder. */
  lemma DivStep(r: int, d: int)
    requires d > 0 && r >= d
    ensures (r - d) / d == r / d - 1 && (r - d) % d == r % d
  {
    var q, m := r / d, r % d;
    assert r - d == (q - 1) * d + m;
    DivUnique(r - d, d, q - 1, m);
  }

  /** Halving a count made of `q` whole pairs of `h` and a rest `m`. */
  lemma HalfOfPairs(r: int, q: int, h: int, m: int)
    requires 0 <= m && r == q * (2 * h) + m
    ensures r / 2 == q * h + m / 2
  {
    assert q * (2 * h) == 2 * (q * h);
    DivUnique(r, 2, q * h + m / 2, m % 2);
  }

  /** With an even divisor, half of every quotient's share and half of the
      remainder make half the dividend. */
  lemma HalfOfEven(r: int, d: int)
    requires d > 0 && d % 2 == 0
    ensures (r / d) * (d / 2) + (r % d) / 2 == r / 2
  {
    var h := d / 2;
    assert d == 2 * h;
    HalfOfPairs(r, r / d, h, r % d);
  }

  /** One factor fewer, plus that factor. */
  lemma MulPred(q: int, h: int)
    ensures (q - 1) * h + h == q * h
  {
  }

  // Four-character codes of the container, as the ASCII bytes that spell them.
  const RIFF: seq<byte> := [0x52, 0x49, 0x46, 0x46]
  const WAVE: seq<byte> := [0x57, 0x41, 0x56, 0x45]
  const FMT: seq<byte> := [0x66, 0x6D, 0x74, 0x20]
  const DATA: seq<byte> := [0x64, 0x61, 0x74, 0x61]

  /** Conversion of an integer to `int16_t` on a two's-complement target. */
  function Int16(x: int): (r: int16)
    ensures (r - x) % 0x1_0000 == 0
  {
    (x + 0x8000) % 0x1_0000 - 0x8000
  }

  /** Conversion of an `int16_t` argument to a `uint16_t` parameter. */
  function U16Of(d: int16): (r: u16)
    ensures (r - d) % 0x1_0000 == 0
  {
    d % 0x1_0000
  }

  /** Conversion of a `uint32_t` to `int24_t`: the low 24 bits, read as signed. */
  function Int24(x: int): (r: int)
    ensures -0x80_0000 <= r < 0x80_0000
    ensures (r - x) % 0x100_0000 == 0
    ensures 0 <= x < 0x80_0000 ==> r == x
  {
    (x + 0x80_0000) % 0x100_0000 - 0x80_0000
  }

  /** An `int16_t` round trip through `uint16_t` is the identity on the wire:
      only the low 16 bits of the product reach the peripheral. */
  lemma U16OfInt16(x: int)
    ensures U16Of(Int16(x)) == x % 0x1_0000
  {
  }
}
