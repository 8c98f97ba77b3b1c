/** UTF-8 (section 3 of RFC 3629): the bytes of a Go string that holds text. */
module Utf8 {
  import opened Common

  function EncodeChar(c: char): Bytes {
    var n := c as int;
    if n < 0x80 then [n]
    else if n < 0x800 then [0xC0 + n / 0x40, 0x80 + n % 0x40]
    else if n < 0x1_0000 then [0xE0 + n / 0x40 / 0x40, 0x80 + n / 0x40 % 0x40, 0x80 + n % 0x40]
    else [0xF0 + n / 0x40 / 0x40 / 0x40, 0x80 + n / 0x40 / 0x40 % 0x40, 0x80 + n / 0x40 % 0x40, 0x80 + n % 0x40]
  }

  function Encode(s: string): Bytes {
    if s == "" then [] else EncodeChar(s[0]) + Encode(s[1..])
  }

  /** The first byte tells the length. */
  function Width(first: Byte): nat {
    if first < 0x80 then 1 else if first < 0xE0 then 2 else if first < 0xF0 then 3 else 4
  }

  lemma FirstByteTellsWidth(c: char)
    ensures |EncodeChar(c)| > 0 && Width(EncodeChar(c)[0]) == |EncodeChar(c)|
  {}

  /** A continuation byte has the high bits 10. */
  predicate Continues(b: Byte) { b / 0x40 == 2 }

  /** The bytes follow the table of section 3: the first byte tells the length by its high bits,
      the others continue, the remaining bits are the character's number, and no shorter form
      would do. */
  lemma EncodeCharMeans(c: char)
    ensures var n, b := c as int, EncodeChar(c);
      && (|b| == 1 <==> n < 0x80) && (|b| == 2 <==> 0x80 <= n < 0x800)
      && (|b| == 3 <==> 0x800 <= n < 0x1_0000) && (|b| == 4 <==> 0x1_0000 <= n)
      && (|b| == 1 ==> n == b[0])
      && (|b| == 2 ==> b[0] / 0x20 == 6 && Continues(b[1]) && n == Low(b[0], 0x20) * 0x40 + Low(b[1], 0x40))
      && (|b| == 3 ==> b[0] / 0x10 == 14 && Continues(b[1]) && Continues(b[2])
                       && n == (Low(b[0], 0x10) * 0x40 + Low(b[1], 0x40)) * 0x40 + Low(b[2], 0x40))
      && (|b| == 4 ==> b[0] / 8 == 30 && Continues(b[1]) && Continues(b[2]) && Continues(b[3])
                       && n == ((Low(b[0], 8) * 0x40 + Low(b[1], 0x40)) * 0x40 + Low(b[2], 0x40)) * 0x40
                               + Low(b[3], 0x40))
  {}

  /** The low bits of a byte. */
  function Low(b: Byte, limit: int): int
    requires limit > 0
  {
    b as int % limit
  }

  lemma LastSextet(m: int, n: int)
    requires m / 0x40 == n / 0x40 && m % 0x40 == n % 0x40
    ensures m == n
  {}

  lemma CharInjective(c: char, d: char)
    requires EncodeChar(c) == EncodeChar(d)
    ensures c == d
  {
    FirstByteTellsWidth(c);
    FirstByteTellsWidth(d);
    var m, n, b, w := c as int, d as int, EncodeChar(d), |EncodeChar(c)|;
    assert EncodeChar(c)[0] == b[0];
    if w > 1 {
      assert EncodeChar(c)[w - 1] == b[w - 1];
      if w > 2 {
        assert EncodeChar(c)[w - 2] == b[w - 2];
        if w > 3 {
          assert EncodeChar(c)[w - 3] == b[w - 3];
          LastSextet(m / 0x40 / 0x40, n / 0x40 / 0x40);
        }
        LastSextet(m / 0x40, n / 0x40);
      }
      LastSextet(m, n);
    }
  }

  /** Different texts have different bytes. */
  lemma {:induction false} EncodeInjective(s: string, t: string)
    requires Encode(s) == Encode(t)
    ensures s == t
  {
    if s != "" && t != "" {
      var c, d, x, y := EncodeChar(s[0]), EncodeChar(t[0]), Encode(s[1..]), Encode(t[1..]);
      FirstByteTellsWidth(s[0]);
      FirstByteTellsWidth(t[0]);
      assert (c + x)[0] == c[0] && (d + y)[0] == d[0];
      assert (c + x)[..|c|] == c && (d + y)[..|d|] == d && (c + x)[|c|..] == x && (d + y)[|d|..] == y;
      CharInjective(s[0], t[0]);
      EncodeInjective(s[1..], t[1..]);
      assert s == [s[0]] + s[1..] && t == [t[0]] + t[1..];
    } else if s != "" {
      FirstByteTellsWidth(s[0]);
    } else if t != "" {
      FirstByteTellsWidth(t[0]);
    }
  }
}
