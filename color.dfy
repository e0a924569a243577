/** The fill colour of a shape: a base colour plus an integer offset,
    written in base 16 the way the host formats numbers (lower-case digits,
    no padding, a minus sign for negative values). */
module Color {

  /** The base colour `3A4FB7`. */
  const Base: int := 0x3A4FB7

  predicate IsHexDigit(c: char) {
    '0' <= c <= '9' || 'a' <= c <= 'f'
  }

  function HexDigit(d: int): (c: char)
    requires 0 <= d < 16
    ensures IsHexDigit(c)
  {
    if d < 10 then ('0' as int + d) as char else ('a' as int + d - 10) as char
  }

  function DigitValue(c: char): int {
    if '0' <= c <= '9' then c as int - '0' as int
    else if 'a' <= c <= 'f' then c as int - 'a' as int + 10
    else 0
  }

  /** The base-16 digits of `n`, most significant first, without leading
      zeros. */
  function HexDigits(n: nat): (s: string)
    ensures |s| > 0
    ensures forall i :: 0 <= i < |s| ==> IsHexDigit(s[i])
    decreases n
  {
    if n < 16 then [HexDigit(n)] else HexDigits(n / 16) + [HexDigit(n % 16)]
  }

  /** The value of a string of base-16 digits. */
  function ParseHex(s: string): int {
    if s == [] then 0 else ParseHex(s[..|s| - 1]) * 16 + DigitValue(s[|s| - 1])
  }

  /** The host's base-16 conversion of an integer. */
  function ToHexString(v: int): (s: string)
    ensures |s| > 0 && (s[0] == '-' <==> v < 0)
    ensures v < 0 ==> |s| >= 2
    ensures forall i :: (if v < 0 then 1 else 0) <= i < |s| ==> IsHexDigit(s[i])
  {
    if v < 0 then "-" + HexDigits(-v) else HexDigits(v)
  }

  /** The colour for an already rounded offset `number`. */
  function DecimalToHexColor(number: int): (c: string)
    ensures |c| >= 2 && c[0] == '#'
  {
    "#" + ToHexString(Base + number)
  }

  /** The integer a colour string written by `DecimalToHexColor` stands
      for. */
  function ColorValue(c: string): int
    requires |c| >= 2
  {
    var t := c[1..];
    if t[0] == '-' then -ParseHex(t[1..]) else ParseHex(t)
  }

  /** A colour of the CSS form `#rrggbb`. */
  predicate IsSixDigitColor(c: string) {
    |c| == 7 && c[0] == '#' && forall i :: 1 <= i < 7 ==> IsHexDigit(c[i])
  }

  function Pow16(k: nat): nat {
    if k == 0 then 1 else 16 * Pow16(k - 1)
  }

  lemma DigitRoundTrip(d: int)
    requires 0 <= d < 16
    ensures DigitValue(HexDigit(d)) == d
  {
  }

  /** Parsing the digits of `n` gives `n` back. */
  lemma {:induction false} HexRoundTrip(n: nat)
    ensures ParseHex(HexDigits(n)) == n
    decreases n
  {
    var s := HexDigits(n);
    if n < 16 {
      assert s[..0] == [];
      DigitRoundTrip(n);
    } else {
      HexRoundTrip(n / 16);
      assert s[..|s| - 1] == HexDigits(n / 16);
      DigitRoundTrip(n % 16);
    }
  }

  /** `n` has at most `k` digits exactly when it is below `16^k`. */
  lemma {:induction false} HexDigitsLength(n: nat, k: nat)
    requires k >= 1
    ensures |HexDigits(n)| <= k <==> n < Pow16(k)
    decreases n
  {
    PowAtLeast16(k);
    if n >= 16 {
      if k == 1 {
        assert Pow16(1) == 16;
      } else {
        HexDigitsLength(n / 16, k - 1);
        assert n / 16 < Pow16(k - 1) <==> n < 16 * Pow16(k - 1);
      }
    }
  }

  lemma {:induction false} PowAtLeast16(k: nat)
    requires k >= 1
    ensures Pow16(k) >= 16
  {
    if k > 1 {
      PowAtLeast16(k - 1);
    }
  }

  lemma DropPrefix(p: string, q: string)
    ensures (p + q)[|p|..] == q
  {
  }

  /** The colour string stands for the base plus the offset. */
  lemma ColorRoundTrip(number: int)
    ensures ColorValue(DecimalToHexColor(number)) == Base + number
  {
    var v := Base + number;
    var t := ToHexString(v);
    DropPrefix("#", t);
    if v < 0 {
      DropPrefix("-", HexDigits(-v));
      HexRoundTrip(-v);
    } else {
      assert IsHexDigit(t[0]);
      HexRoundTrip(v);
    }
  }

  /** The colour is a well-formed `#rrggbb` exactly when base plus offset
      has six base-16 digits; any other offset gives a shorter, longer or
      signed code, since nothing pads or clamps it. */
  lemma SixDigitsExactly(number: int)
    ensures IsSixDigitColor(DecimalToHexColor(number)) <==> 0x100000 <= Base + number <= 0xFFFFFF
  {
    var v := Base + number;
    var c := DecimalToHexColor(number);
    assert Pow16(5) == 0x100000 && Pow16(6) == 0x1000000 by {
      assert Pow16(1) == 16;
      assert Pow16(2) == 256;
      assert Pow16(3) == 4096;
      assert Pow16(4) == 65536;
    }
    if v < 0 {
      assert !IsHexDigit(c[1]);
    } else {
      var d := HexDigits(v);
      assert c == "#" + d;
      HexDigitsLength(v, 5);
      HexDigitsLength(v, 6);
      if |d| == 6 {
        assert forall i :: 1 <= i < 7 ==> c[i] == d[i - 1];
      }
    }
  }
}
