/** UTF-8 (RFC 3629) as a map between text and bytes; a byte is a character below 256. */
module Unicode {
  import opened Wrappers
  import opened Text

  function Byte(n: nat): char
    requires n < 256
  {
    n as char
  }

  function EncodeChar(c: char): (b: string)
    ensures 1 <= |b| <= 4 && (c as int < 0x10000 ==> |b| <= 3)
  {
    var n := c as int;
    if n < 0x80 then [c]
    else if n < 0x800 then [Byte(0xC0 + n / 0x40), Byte(0x80 + n % 0x40)]
    else if n < 0x10000 then [Byte(0xE0 + n / 0x1000), Byte(0x80 + n / 0x40 % 0x40), Byte(0x80 + n % 0x40)]
    else [Byte(0xF0 + n / 0x40000), Byte(0x80 + n / 0x1000 % 0x40), Byte(0x80 + n / 0x40 % 0x40), Byte(0x80 + n % 0x40)]
  }

  function Encode(text: string): string {
    if text == [] then [] else EncodeChar(text[0]) + Encode(text[1..])
  }

  function Tail(b: string, i: nat): int
    requires i < |b|
  {
    b[i] as int - 0x80
  }

  /** The character of the well-formed sequence that `b` starts with. */
  function CodePoint(b: string): char
    requires Utf8Lead(b) > 0
  {
    match Utf8Lead(b)
    case 1 => b[0]
    case 2 => ((b[0] as int - 0xC0) * 0x40 + Tail(b, 1)) as char
    case 3 => ((b[0] as int - 0xE0) * 0x1000 + Tail(b, 1) * 0x40 + Tail(b, 2)) as char
    case _ => ((b[0] as int - 0xF0) * 0x40000 + Tail(b, 1) * 0x1000 + Tail(b, 2) * 0x40 + Tail(b, 3)) as char
  }

  function Decode(b: string): Option<string>
    decreases |b|
  {
    if b == [] then Some([])
    else if Utf8Lead(b) == 0 then None
    else
      var rest := Decode(b[Utf8Lead(b)..]);
      if rest.None? then None else Some([CodePoint(b)] + rest.value)
  }

  lemma ThreeBytesRead(c: char, b: string)
    requires 0x800 <= c as int < 0x10000 && EncodeChar(c) <= b
    ensures Utf8Lead(b) == 3 && CodePoint(b) == c
  {
    var n := c as int;
    var hi, mid, lo := n / 0x1000, n / 0x40 % 0x40, n % 0x40;
    assert b[0] as int == 0xE0 + hi && b[1] as int == 0x80 + mid && b[2] as int == 0x80 + lo;
    assert n == hi * 0x1000 + mid * 0x40 + lo;
    hide EncodeChar;
    assert hi == 0 ==> mid >= 0x20;
    assert hi == 13 ==> mid < 0x20;
  }

  lemma FourDigits(n: nat, top: nat, hi: nat, mid: nat, lo: nat)
    requires 0x10000 <= n < 0x110000
    requires top == n / 0x40000 && hi == n / 0x1000 % 0x40 && mid == n / 0x40 % 0x40 && lo == n % 0x40
    ensures n == top * 0x40000 + hi * 0x1000 + mid * 0x40 + lo
    ensures top <= 4 && (top == 0 ==> hi >= 0x10) && (top == 4 ==> hi < 0x10)
  {
    assert n / 0x1000 == n / 0x40 / 0x40;
    assert n / 0x40000 == n / 0x1000 / 0x40;
  }

  lemma FourBytesRead(c: char, b: string)
    requires 0x10000 <= c as int && EncodeChar(c) <= b
    ensures Utf8Lead(b) == 4 && CodePoint(b) == c
  {
    var n := c as int;
    var top, hi, mid, lo := n / 0x40000, n / 0x1000 % 0x40, n / 0x40 % 0x40, n % 0x40;
    FourDigits(n, top, hi, mid, lo);
    assert b[0] as int == 0xF0 + top && b[1] as int == 0x80 + hi && b[2] as int == 0x80 + mid && b[3] as int == 0x80 + lo;
    FourRead(b, top, hi, mid, lo);
  }

  lemma FourRead(b: string, top: nat, hi: nat, mid: nat, lo: nat)
    requires |b| >= 4 && b[0] as int == 0xF0 + top && b[1] as int == 0x80 + hi && b[2] as int == 0x80 + mid && b[3] as int == 0x80 + lo
    requires top <= 4 && hi < 0x40 && mid < 0x40 && lo < 0x40 && (top == 0 ==> hi >= 0x10) && (top == 4 ==> hi < 0x10)
    ensures Utf8Lead(b) == 4 && CodePoint(b) as int == top * 0x40000 + hi * 0x1000 + mid * 0x40 + lo
  {
    assert InRange(b, 1, 0x80, 0xBF) && InRange(b, 2, 0x80, 0xBF) && InRange(b, 3, 0x80, 0xBF);
  }

  lemma CharReads(c: char, rest: string)
    ensures var e := EncodeChar(c); Utf8Lead(e + rest) == |e| && CodePoint(e + rest) == c
  {
    var b, n := EncodeChar(c) + rest, c as int;
    if 0x10000 <= n {
      FourBytesRead(c, b);
    } else if 0x800 <= n {
      ThreeBytesRead(c, b);
    } else if 0x80 <= n {
      assert b[1] == EncodeChar(c)[1];
    }
    hide Utf8Lead, CodePoint;
  }

  /** Every text survives its encoding. */
  lemma {:induction false} DecodeEncode(text: string)
    ensures Decode(Encode(text)) == Some(text)
  {
    if text != [] {
      var e, rest := EncodeChar(text[0]), Encode(text[1..]);
      CharReads(text[0], rest);
      DecodeEncode(text[1..]);
      assert (e + rest)[|e|..] == rest;
      hide EncodeChar, CodePoint, Utf8Lead;
      assert [text[0]] + text[1..] == text;
    }
  }
}
