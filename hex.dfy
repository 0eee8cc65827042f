/** The lowercase hexadecimal renderings the disassembler asks of Java's
    String.format: `%x` (Hex), `%#x` (Alt), `%#0Nx` (AltPadded), `%02x` (Hex2)
    and `%4x` (Hex4). Every value rendered is non-negative: a Java int is
    printed by `%x` as its unsigned 32-bit pattern, and the model keeps ints
    as that pattern. ParseHex is the inverse the renderings are checked against. */
module HexFormat {

  predicate IsHexDigit(c: char) {
    '0' <= c <= '9' || 'a' <= c <= 'f'
  }

  function Digit(d: nat): (c: char)
    requires d < 16
    ensures IsHexDigit(c)
  {
    if d < 10 then ('0' as int + d) as char else ('a' as int + d - 10) as char
  }

  function DigitValue(c: char): nat {
    if '0' <= c <= '9' then c as int - '0' as int
    else if 'a' <= c <= 'f' then c as int - 'a' as int + 10
    else 0
  }

  function Pow16(k: nat): (p: nat)
    ensures p >= 1
  {
    if k == 0 then 1 else 16 * Pow16(k - 1)
  }

  /** `%x`: the shortest lowercase hexadecimal numeral of n. */
  function Hex(n: nat): (s: string)
    ensures 1 <= |s|
    decreases n
  {
    if n < 16 then [Digit(n)] else Hex(n / 16) + [Digit(n % 16)]
  }

  /** The value of a numeral, most significant digit first. */
  function ParseHex(s: string): nat {
    if s == [] then 0 else 16 * ParseHex(s[..|s| - 1]) + DigitValue(s[|s| - 1])
  }

  function Repeat(c: char, k: nat): (s: string)
    ensures |s| == k && forall i | 0 <= i < k :: s[i] == c
  {
    seq(k, _ => c)
  }

  function ZeroPad(s: string, width: int): string {
    if |s| >= width then s else Repeat('0', width - |s|) + s
  }

  function SpacePad(s: string, width: int): string {
    if |s| >= width then s else Repeat(' ', width - |s|) + s
  }

  /** `%#x`: Java prints the 0x prefix for zero as well ("0x0"). */
  function Alt(n: nat): string {
    "0x" + Hex(n)
  }

  /** `%#0<width>x`: the width counts the 0x prefix; zeros go after it. */
  function AltPadded(n: nat, width: nat): string
    requires width >= 2
  {
    "0x" + ZeroPad(Hex(n), width - 2)
  }

  /** `%02x` */
  function Hex2(n: nat): string {
    ZeroPad(Hex(n), 2)
  }

  /** `%4x` */
  function Hex4(n: nat): string {
    SpacePad(Hex(n), 4)
  }

  lemma {:induction false} ParseHexOfHex(n: nat)
    ensures ParseHex(Hex(n)) == n
    decreases n
  {
    if n >= 16 {
      var s := Hex(n);
      assert s[..|s| - 1] == Hex(n / 16);
      ParseHexOfHex(n / 16);
    }
  }

  /** A numeral is made of hex digits only, with no leading zero unless it
      is the numeral of zero. */
  lemma {:induction false} HexDigits(n: nat)
    ensures forall i | 0 <= i < |Hex(n)| :: IsHexDigit(Hex(n)[i])
    ensures n > 0 ==> Hex(n)[0] != '0'
    decreases n
  {
    if n >= 16 {
      HexDigits(n / 16);
      assert Hex(n) == Hex(n / 16) + [Digit(n % 16)];
    }
  }

  /** No numeral breaks a line. */
  lemma NumeralsOneLine(n: nat, width: int)
    ensures '\n' !in Hex(n) && '\n' !in Alt(n) && '\n' !in Hex2(n) && '\n' !in Hex4(n)
    ensures width >= 2 ==> '\n' !in AltPadded(n, width)
  {
    HexDigits(n);
  }

  lemma {:induction false} HexLength(n: nat, k: nat)
    requires 1 <= k && n < Pow16(k)
    ensures |Hex(n)| <= k
    decreases k
  {
    if n >= 16 {
      assert k >= 2;
      assert n / 16 < Pow16(k - 1);
      HexLength(n / 16, k - 1);
    }
  }

  lemma {:induction false} ParseZeros(k: nat)
    ensures ParseHex(Repeat('0', k)) == 0
  {
    if k > 0 {
      assert Repeat('0', k)[..k - 1] == Repeat('0', k - 1);
      ParseZeros(k - 1);
    }
  }

  lemma {:induction false} ParseLeadingZeros(k: nat, s: string)
    ensures ParseHex(Repeat('0', k) + s) == ParseHex(s)
    decreases |s|
  {
    if s == [] {
      assert Repeat('0', k) + s == Repeat('0', k);
      ParseZeros(k);
    } else {
      var t := Repeat('0', k) + s;
      assert t[..|t| - 1] == Repeat('0', k) + s[..|s| - 1];
      ParseLeadingZeros(k, s[..|s| - 1]);
    }
  }

  /** A zero-padded numeral has exactly the requested number of digits when
      the value fits, and still denotes the value. */
  lemma ZeroPadExact(n: nat, k: nat)
    requires 1 <= k && n < Pow16(k)
    ensures |ZeroPad(Hex(n), k)| == k
    ensures ParseHex(ZeroPad(Hex(n), k)) == n
  {
    HexLength(n, k);
    ParseHexOfHex(n);
    if |Hex(n)| < k {
      ParseLeadingZeros(k - |Hex(n)|, Hex(n));
    }
  }

  /** `%02x` of a byte is exactly two digits denoting the byte. */
  lemma Hex2Exact(b: nat)
    requires b < 256
    ensures |Hex2(b)| == 2 && ParseHex(Hex2(b)) == b
  {
    ZeroPadExact(b, 2);
  }

  /** `%4x` of an address below 0x10000 is exactly four columns wide. */
  lemma Hex4Exact(a: nat)
    requires a < 0x1_0000
    ensures |Hex4(a)| == 4
  {
    assert Pow16(4) == 0x1_0000;
    HexLength(a, 4);
  }

  /** `%#0<k+2>x` of a value below 16^k shows 0x and exactly k digits
      denoting the value. */
  lemma AltPaddedExact(n: nat, k: nat)
    requires 1 <= k && n < Pow16(k)
    ensures |AltPadded(n, k + 2)| == k + 2
    ensures AltPadded(n, k + 2)[..2] == "0x"
    ensures ParseHex(AltPadded(n, k + 2)[2..]) == n
  {
    ZeroPadExact(n, k);
    assert AltPadded(n, k + 2)[2..] == ZeroPad(Hex(n), k);
  }

  /** `%#x` shows 0x followed by the digits of the value. */
  lemma AltDenotes(n: nat)
    ensures Alt(n)[..2] == "0x" && ParseHex(Alt(n)[2..]) == n
  {
    assert Alt(n)[2..] == Hex(n);
    ParseHexOfHex(n);
  }
}
