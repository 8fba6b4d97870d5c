/** Byte strings: one character per byte.  Splitting, decimal numerals, UTF-8. */
module Text {
  import opened Wrappers

  predicate IsDigit(c: char) { '0' <= c <= '9' }

  predicate AllDigits(s: string) { forall i | 0 <= i < |s| :: IsDigit(s[i]) }

  predicate IsHex(c: char) { IsDigit(c) || 'a' <= c <= 'f' }

  /** Exactly `n` lower-case hexadecimal digits. */
  predicate Hex(s: string, n: nat) { |s| == n && forall i | 0 <= i < |s| :: IsHex(s[i]) }

  /** ASCII letters in lower case. */
  function Lower(s: string): string {
    seq(|s|, i requires 0 <= i < |s| => if 'A' <= s[i] <= 'Z' then s[i] - 'A' + 'a' else s[i])
  }

  /** ASCII letters in upper case. */
  function Upper(s: string): string {
    seq(|s|, i requires 0 <= i < |s| => if 'a' <= s[i] <= 'z' then s[i] - 'a' + 'A' else s[i])
  }

  // ---- Decimal numerals ----

  function Decimal(n: nat): string {
    if n < 10 then [n as char + '0'] else Decimal(n / 10) + [(n % 10) as char + '0']
  }

  function ValueOf(s: string): nat
    requires AllDigits(s)
  {
    if s == [] then 0 else ValueOf(s[..|s| - 1]) * 10 + (s[|s| - 1] - '0') as nat
  }

  /** A numeral without superfluous leading zeros. */
  predicate Numeral(s: string) { s != [] && AllDigits(s) && (|s| > 1 ==> s[0] != '0') }

  lemma {:induction false} DecimalReads(n: nat)
    ensures Numeral(Decimal(n)) && ValueOf(Decimal(n)) == n
    ensures n > 0 ==> Decimal(n)[0] != '0'
  {
    if n >= 10 {
      DecimalReads(n / 10);
      assert Decimal(n)[..|Decimal(n)| - 1] == Decimal(n / 10);
    }
  }

  lemma {:induction false} NumeralPrints(s: string)
    requires Numeral(s)
    ensures Decimal(ValueOf(s)) == s
    ensures s[0] != '0' ==> ValueOf(s) > 0
  {
    var front, last := s[..|s| - 1], (s[|s| - 1] - '0') as nat;
    assert s == front + [last as char + '0'];
    if front != [] {
      assert front[0] == s[0];
      NumeralPrints(front);
      assert ValueOf(s) / 10 == ValueOf(front) && ValueOf(s) % 10 == last;
    } else {
      assert ValueOf(s) == last;
    }
  }

  function Pow10(k: nat): nat { if k == 0 then 1 else 10 * Pow10(k - 1) }

  lemma {:induction false} DecimalLength(n: nat, k: nat)
    requires 0 < k && n < Pow10(k)
    ensures 1 <= |Decimal(n)| <= k
  {
    if n >= 10 {
      DecimalLength(n / 10, k - 1);
    }
  }

  const U32_MAX: nat := 4_294_967_295
  const U64_MAX: nat := 0xFFFF_FFFF_FFFF_FFFF

  lemma U32Length(n: nat)
    requires n <= U32_MAX
    ensures 1 <= |Decimal(n)| <= 10
  {
    assert Pow10(5) == 100_000;
    assert Pow10(10) == 10_000_000_000 by {
      assert Pow10(7) == 10_000_000 && Pow10(9) == 1_000_000_000;
    }
    DecimalLength(n, 10);
  }

  // ---- Splitting ----

  /** `str::split`: the pieces between separators; the empty string has one empty piece. */
  function Split(s: string, sep: char): (pieces: seq<string>)
    ensures pieces != []
  {
    if s == [] then [[]]
    else
      var rest := Split(s[1..], sep);
      if s[0] == sep then [[]] + rest else [[s[0]] + rest[0]] + rest[1..]
  }

  function Join(pieces: seq<string>, sep: char): string
    requires pieces != []
  {
    if |pieces| == 1 then pieces[0] else pieces[0] + [sep] + Join(pieces[1..], sep)
  }

  /** Splitting loses nothing and no piece holds the separator. */
  lemma {:induction false} JoinSplit(s: string, sep: char)
    ensures Join(Split(s, sep), sep) == s
    ensures forall i | 0 <= i < |Split(s, sep)| :: sep !in Split(s, sep)[i]
  {
    if s != [] {
      JoinSplit(s[1..], sep);
      var rest, pieces := Split(s[1..], sep), Split(s, sep);
      assert s == [s[0]] + s[1..];
      if s[0] == sep {
        assert pieces[1..] == rest;
      } else {
        assert pieces[1..] == rest[1..];
      }
    }
  }

  lemma {:induction false} SplitFirst(a: string, b: string, sep: char)
    requires sep !in a
    ensures Split(a, sep) == [a]
    ensures Split(a + [sep] + b, sep) == [a] + Split(b, sep)
  {
    if a == [] {
      assert a + [sep] + b == [sep] + b;
    } else {
      SplitFirst(a[1..], b, sep);
      assert a == [a[0]] + a[1..];
      assert (a + [sep] + b)[1..] == a[1..] + [sep] + b;
    }
  }

  lemma {:induction false} SplitJoin(pieces: seq<string>, sep: char)
    requires pieces != [] && forall i | 0 <= i < |pieces| :: sep !in pieces[i]
    ensures Split(Join(pieces, sep), sep) == pieces
  {
    if |pieces| == 1 {
      SplitFirst(pieces[0], [], sep);
    } else {
      SplitJoin(pieces[1..], sep);
      SplitFirst(pieces[0], Join(pieces[1..], sep), sep);
    }
  }

  /** `str::strip_prefix`. */
  function StripPrefix(s: string, prefix: string): Option<string> {
    if prefix <= s then Some(s[|prefix|..]) else None
  }

  // ---- UTF-8 (RFC 3629, section 4) ----

  predicate InRange(s: string, i: nat, lo: int, hi: int) { i < |s| && lo <= s[i] as int <= hi }

  /** The length of the well-formed sequence that `s` starts with; 0 if there is none. */
  function Utf8Lead(s: string): (n: nat)
    ensures n <= |s|
  {
    if InRange(s, 0, 0x00, 0x7F) then 1
    else if InRange(s, 0, 0xC2, 0xDF) && InRange(s, 1, 0x80, 0xBF) then 2
    else if ((InRange(s, 0, 0xE0, 0xE0) && InRange(s, 1, 0xA0, 0xBF))
             || (InRange(s, 0, 0xE1, 0xEC) && InRange(s, 1, 0x80, 0xBF))
             || (InRange(s, 0, 0xED, 0xED) && InRange(s, 1, 0x80, 0x9F))
             || (InRange(s, 0, 0xEE, 0xEF) && InRange(s, 1, 0x80, 0xBF))) && InRange(s, 2, 0x80, 0xBF) then 3
    else if ((InRange(s, 0, 0xF0, 0xF0) && InRange(s, 1, 0x90, 0xBF))
             || (InRange(s, 0, 0xF1, 0xF3) && InRange(s, 1, 0x80, 0xBF))
             || (InRange(s, 0, 0xF4, 0xF4) && InRange(s, 1, 0x80, 0x8F)))
            && InRange(s, 2, 0x80, 0xBF) && InRange(s, 3, 0x80, 0xBF) then 4
    else 0
  }

  predicate Utf8(s: string)
    decreases |s|
  {
    s == [] || (Utf8Lead(s) > 0 && Utf8(s[Utf8Lead(s)..]))
  }

  predicate Ascii(s: string) { forall i | 0 <= i < |s| :: s[i] as int < 0x80 }

  lemma {:induction false} AsciiIsUtf8(s: string)
    requires Ascii(s)
    ensures Utf8(s)
  {
    if s != [] {
      AsciiIsUtf8(s[1..]);
    }
  }
}
