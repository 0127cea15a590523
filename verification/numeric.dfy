/** The small numeric helpers of the player: the saturating decimal readers
    `strtou16`, `strtou8` and `strtou24`, and `getByte`, which locates the
    lowest non-zero byte of a 32-bit mask.  A C string is modelled as the
    characters before its terminator; the terminator is neither blank nor a
    digit, so ending the sequence stops both scanning loops exactly where the
    NUL would. */
module Numeric {
  import opened Bytes

  // ---- decimal text ----

  /** The three blanks the readers skip before the digits. */
  predicate IsBlank(c: char)
  {
    c == ' ' || c == '\t' || c == '\n'
  }

  predicate IsDigit(c: char)
  {
    '0' <= c <= '9'
  }

  function DigitValue(c: char): (d: nat)
    requires IsDigit(c)
    ensures d <= 9
  {
    c as int - '0' as int
  }

  /** Every character of `s` from `a` up to (not including) `b` is a digit. */
  predicate DigitsFrom(s: seq<char>, a: nat, b: nat)
  {
    a <= b <= |s| && forall k :: a <= k < b ==> IsDigit(s[k])
  }

  /** The number the digits `s[a..b]` denote, most significant first. */
  function DigitsValue(s: seq<char>, a: nat, b: nat): nat
    requires DigitsFrom(s, a, b)
    decreases b - a
  {
    if a == b then 0 else 10 * DigitsValue(s, a, b - 1) + DigitValue(s[b - 1])
  }

  /** Index of the first character that is not a blank. */
  function SkipBlanks(s: seq<char>, i: nat): (j: nat)
    requires i <= |s|
    ensures i <= j <= |s|
    ensures forall k :: i <= k < j ==> IsBlank(s[k])
    ensures j < |s| ==> !IsBlank(s[j])
    decreases |s| - i
  {
    if i < |s| && IsBlank(s[i]) then SkipBlanks(s, i + 1) else i
  }

  /** Index just past the run of digits that starts at `i`. */
  function DigitRunEnd(s: seq<char>, i: nat): (j: nat)
    requires i <= |s|
    ensures i <= j <= |s|
    ensures DigitsFrom(s, i, j)
    ensures j < |s| ==> !IsDigit(s[j])
    decreases |s| - i
  {
    if i < |s| && IsDigit(s[i]) then DigitRunEnd(s, i + 1) else i
  }

  /** The unbounded value of the text: leading blanks, then the longest run
      of digits; no digits at all reads as 0. */
  function DecimalValue(s: seq<char>): nat
  {
    var start := SkipBlanks(s, 0);
    DigitsValue(s, start, DigitRunEnd(s, start))
  }

  /** A longer run of digits never denotes a smaller number. */
  lemma {:induction false} DigitsValueGrows(s: seq<char>, a: nat, j: nat, k: nat)
    requires DigitsFrom(s, a, k) && a <= j <= k
    ensures DigitsFrom(s, a, j)
    ensures DigitsValue(s, a, j) <= DigitsValue(s, a, k)
    decreases k - j
  {
    if j < k {
      DigitsValueGrows(s, a, j, k - 1);
    }
  }

  /** The common loop of the three readers.  `top` is the type's maximum,
      given as in the source by its quotient and remainder by ten.  The
      result is the value of the digits, or `top` as soon as the next digit
      would take it past `top`. */
  method SaturatingParse(s: seq<char>, maxDiv10: nat, maxMod10: nat) returns (r: nat)
    requires maxMod10 <= 9
    ensures r == Min(DecimalValue(s), 10 * maxDiv10 + maxMod10)
  {
    var top := 10 * maxDiv10 + maxMod10;
    var start := SkipBlanks(s, 0);
    var end := DigitRunEnd(s, start);
    var i := 0;
    while i < |s| && IsBlank(s[i])
      invariant i <= start
    {
      i := i + 1;
    }
    r := 0;
    while i < |s| && IsDigit(s[i])
      invariant start <= i <= end && DigitsFrom(s, start, end)
      invariant r == DigitsValue(s, start, i) && r <= top
    {
      var digit := DigitValue(s[i]);
      if r > maxDiv10 || (r == maxDiv10 && digit > maxMod10) {
        RunExceeds(s, start, i, end, maxDiv10, maxMod10);
        return top;
      }
      r := r * 10 + digit;
      i := i + 1;
    }
  }

  /** The guard of the saturating reader: a digit that would take the value
      past `top` means the whole run denotes more than `top`. */
  lemma RunExceeds(s: seq<char>, start: nat, i: nat, end: nat, maxDiv10: nat, maxMod10: nat)
    requires start <= i < end && DigitsFrom(s, start, end)
    requires maxMod10 <= 9
    requires DigitsFrom(s, start, i)
    requires var r := DigitsValue(s, start, i);
      r > maxDiv10 || (r == maxDiv10 && DigitValue(s[i]) > maxMod10)
    ensures DigitsValue(s, start, end) > 10 * maxDiv10 + maxMod10
  {
    assert DigitsValue(s, start, i + 1) == 10 * DigitsValue(s, start, i) + DigitValue(s[i]);
    DigitsValueGrows(s, start, i + 1, end);
  }

  /** `strtou16`: saturates at 65535 = 10 * 6553 + 5. */
  method StrToU16(s: seq<char>) returns (r: u16)
    ensures r == Min(DecimalValue(s), 65535)
  {
    var v := SaturatingParse(s, 6553, 5);
    r := v;
  }

  /** `strtou8`: saturates at 255 = 10 * 25 + 5. */
  method StrToU8(s: seq<char>) returns (r: byte)
    ensures r == Min(DecimalValue(s), 255)
  {
    var v := SaturatingParse(s, 25, 5);
    r := v;
  }

  /** `strtou24`: saturates at 16777215 = 10 * 1677721 + 5. */
  method StrToU24(s: seq<char>) returns (r: nat)
    ensures r < 0x100_0000
    ensures r == Min(DecimalValue(s), 16777215)
  {
    r := SaturatingParse(s, 1677721, 5);
  }

  // ---- the reference rendering: the readers' partner ----

  /** The canonical decimal rendering of `n` (no leading zeros; "0" for zero). */
  function Render(n: nat): (ds: seq<char>)
    ensures |ds| > 0 && DigitsFrom(ds, 0, |ds|)
  {
    var last := ['0' + (n % 10) as char];
    if n < 10 then last else Render(n / 10) + last
  }

  /** The value of digits does not depend on where they sit. */
  lemma {:induction false} DigitsValueShift(s: seq<char>, p: nat, t: seq<char>, m: nat)
    requires p + |t| <= |s| && s[p .. p + |t|] == t && DigitsFrom(t, 0, |t|) && m <= |t|
    ensures DigitsFrom(s, p, p + m) && DigitsValue(s, p, p + m) == DigitsValue(t, 0, m)
    decreases m
  {
    assert forall k :: p <= k < p + m ==> s[k] == t[k - p];
    if m > 0 {
      DigitsValueShift(s, p, t, m - 1);
      assert s[p + m - 1] == t[m - 1];
    }
  }

  lemma {:induction false} RenderValue(n: nat)
    ensures DigitsValue(Render(n), 0, |Render(n)|) == n
  {
    var ds := Render(n);
    if n >= 10 {
      var front := Render(n / 10);
      RenderValue(n / 10);
      DigitsValueShift(ds, 0, front, |front|);
    }
  }

  /** Reading back a rendered number, after any blanks and before any
      non-digit, yields the number. */
  lemma RenderRoundTrip(blanks: seq<char>, n: nat, tail: seq<char>)
    requires forall i :: 0 <= i < |blanks| ==> IsBlank(blanks[i])
    requires |tail| > 0 ==> !IsDigit(tail[0])
    ensures DecimalValue(blanks + Render(n) + tail) == n
  {
    var ds := Render(n);
    var s := blanks + ds + tail;
    var p := |blanks|;
    assert s == blanks + (ds + tail);
    SkipOver(s, blanks, ds + tail, 0);
    assert s[p..] == ds + tail;
    RunOver(s, p, ds, tail);
    assert s[p .. p + |ds|] == ds;
    DigitsValueShift(s, p, ds, |ds|);
    RenderValue(n);
    assert DecimalValue(s) == DigitsValue(s, p, p + |ds|);
  }

  lemma {:induction false} SkipOver(s: seq<char>, blanks: seq<char>, rest: seq<char>, i: nat)
    requires s == blanks + rest && i <= |blanks|
    requires forall k :: 0 <= k < |blanks| ==> IsBlank(blanks[k])
    requires |rest| > 0 && !IsBlank(rest[0])
    ensures SkipBlanks(s, i) == |blanks|
    decreases |blanks| - i
  {
    if i < |blanks| {
      assert s[i] == blanks[i];
      SkipOver(s, blanks, rest, i + 1);
    } else {
      assert s[i] == rest[0];
    }
  }

  lemma RunOver(s: seq<char>, p: nat, ds: seq<char>, tail: seq<char>)
    requires p + |ds| + |tail| == |s| && s[p..] == ds + tail && DigitsFrom(ds, 0, |ds|)
    requires |tail| > 0 ==> !IsDigit(tail[0])
    ensures DigitRunEnd(s, p) == p + |ds|
  {
    RunFrom(s, p, ds, tail, p);
  }

  lemma {:induction false} RunFrom(s: seq<char>, p: nat, ds: seq<char>, tail: seq<char>, i: nat)
    requires p + |ds| + |tail| == |s| && s[p..] == ds + tail && DigitsFrom(ds, 0, |ds|)
    requires |tail| > 0 ==> !IsDigit(tail[0])
    requires p <= i <= p + |ds|
    ensures DigitRunEnd(s, i) == p + |ds|
    decreases p + |ds| - i
  {
    if i < p + |ds| {
      assert s[i] == s[p..][i - p] == ds[i - p];
      RunFrom(s, p, ds, tail, i + 1);
    } else if i < |s| {
      assert s[i] == s[p..][i - p] == tail[0];
    }
  }

  /** A number above the maximum reads as the maximum. */
  lemma LargeInputSaturates()
    ensures DecimalValue(Render(70000)) == 70000
    ensures Min(DecimalValue(Render(70000)), 65535) == 65535
    ensures DecimalValue("  \t42x") == 42
  {
    RenderRoundTrip([], 70000, []);
    assert Render(70000) == [] + Render(70000) + [];
    RenderRoundTrip("  \t", 42, "x");
    assert Render(42) == "42";
    assert "  \t42x" == "  \t" + Render(42) + "x";
  }

  // ---- getByte ----

  /** The bits below byte `k` of a 32-bit word. */
  function LowMask(k: nat): bv32
    requires k < 4
  {
    if k == 0 then 0 else if k == 1 then 0xFF else if k == 2 then 0xFFFF else 0xFF_FFFF
  }

  /** Byte `k` of a word, counting from the least significant. */
  function ByteAt(w: bv32, k: nat): bv32
    requires k < 4
  {
    (w >> (8 * k)) & 0xFF
  }

  /** `getByte`: tests `(mask >> 8k) & 0xFF` for k = 0, 1, 2, 3 and answers
      the first that is non-zero, or -1 for an all-zero mask. */
  function GetByte(mask: bv32): (r: int)
    ensures -1 <= r < 4
    ensures r == -1 <==> mask == 0
    // the answer is the lowest non-zero byte: it is set, everything below it is clear
    ensures r >= 0 ==> ByteAt(mask, r) != 0 && mask & LowMask(r) == 0
  {
    if mask & 0xFF != 0 then 0
    else if (mask >> 8) & 0xFF != 0 then 1
    else if (mask >> 16) & 0xFF != 0 then 2
    else if (mask >> 24) & 0xFF != 0 then 3
    else -1
  }

  /** The word made of four bytes, least significant first. */
  function Compose(b0: bv8, b1: bv8, b2: bv8, b3: bv8): bv32
  {
    (b0 as bv32) | (b1 as bv32 << 8) | (b2 as bv32 << 16) | (b3 as bv32 << 24)
  }

  /** On a word given by its bytes, `getByte` answers the position of the
      first non-zero byte. */
  lemma GetByteOfCompose(b0: bv8, b1: bv8, b2: bv8, b3: bv8)
    ensures var r := GetByte(Compose(b0, b1, b2, b3));
      && (r == -1 <==> b0 == 0 && b1 == 0 && b2 == 0 && b3 == 0)
      && (r >= 0 ==> [b0, b1, b2, b3][r] != 0)
      && (forall j :: 0 <= j < r ==> [b0, b1, b2, b3][j] == 0)
  {
    ComposeBytes(b0, b1, b2, b3);
  }

  /** Composing bytes and reading them back is the identity. */
  lemma ComposeBytes(b0: bv8, b1: bv8, b2: bv8, b3: bv8)
    ensures var w := Compose(b0, b1, b2, b3);
      && w & 0xFF == b0 as bv32 && (w >> 8) & 0xFF == b1 as bv32
      && (w >> 16) & 0xFF == b2 as bv32 && (w >> 24) & 0xFF == b3 as bv32
  {
  }
}
