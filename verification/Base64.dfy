/** Base64 with padding, read strictly: sections 4 and 3.5 of RFC 4648. */
module Base64 {
  import opened Wrappers

  predicate Bytes(s: string) { forall i | 0 <= i < |s| :: s[i] as int < 256 }

  function Symbol(v: nat): char
    requires v < 64
  {
    if v < 26 then 'A' + v as char
    else if v < 52 then 'a' + (v - 26) as char
    else if v < 62 then '0' + (v - 52) as char
    else if v == 62 then '+' else '/'
  }

  /** The value of a symbol; 64 for a character outside the alphabet. */
  function Sextet(c: char): (v: nat)
    ensures v <= 64
    ensures v < 64 <==> 'A' <= c <= 'Z' || 'a' <= c <= 'z' || '0' <= c <= '9' || c == '+' || c == '/'
    ensures v < 64 ==> Symbol(v) == c
  {
    if 'A' <= c <= 'Z' then (c - 'A') as nat
    else if 'a' <= c <= 'z' then (c - 'a') as nat + 26
    else if '0' <= c <= '9' then (c - '0') as nat + 52
    else if c == '+' then 62 else if c == '/' then 63 else 64
  }

  lemma SymbolReads(v: nat)
    requires v < 64
    ensures Sextet(Symbol(v)) == v && Symbol(v) != '='
  {
  }

  /** Three bytes as four symbols. */
  function Group(b: string): (s: string)
    requires |b| == 3 && Bytes(b)
    ensures |s| == 4
  {
    var x, y, z := b[0] as nat, b[1] as nat, b[2] as nat;
    [Symbol(x / 4), Symbol(x % 4 * 16 + y / 16), Symbol(y % 16 * 4 + z / 64), Symbol(z % 64)]
  }

  function Ungroup(s: string): (b: Option<string>)
    requires |s| == 4
    ensures b.Some? ==> |b.value| == 3
  {
    var p, q, r, u := Sextet(s[0]), Sextet(s[1]), Sextet(s[2]), Sextet(s[3]);
    if p == 64 || q == 64 || r == 64 || u == 64 then None
    else Some([(p * 4 + q / 16) as char, (q % 16 * 16 + r / 4) as char, (r % 4 * 64 + u) as char])
  }

  /** One or two bytes, padded. */
  function Tail(b: string): (s: string)
    requires 1 <= |b| <= 2 && Bytes(b)
    ensures |s| == 4 && s[3] == '='
  {
    var x := b[0] as nat;
    if |b| == 1 then [Symbol(x / 4), Symbol(x % 4 * 16), '=', '=']
    else
      var y := b[1] as nat;
      [Symbol(x / 4), Symbol(x % 4 * 16 + y / 16), Symbol(y % 16 * 4), '=']
  }

  /** A padded group; bits the padding leaves over must be zero. */
  function Untail(s: string): Option<string>
    requires |s| == 4 && s[3] == '='
  {
    var p, q, r := Sextet(s[0]), Sextet(s[1]), Sextet(s[2]);
    if p == 64 || q == 64 then None
    else if s[2] == '=' then (if q % 16 == 0 then Some([(p * 4 + q / 16) as char]) else None)
    else if r == 64 || r % 4 != 0 then None
    else Some([(p * 4 + q / 16) as char, (q % 16 * 16 + r / 4) as char])
  }

  function Encode(b: string): string
    requires Bytes(b)
  {
    if b == [] then "" else if |b| < 3 then Tail(b) else Group(b[..3]) + Encode(b[3..])
  }

  function Decode(s: string): Option<string> {
    if s == "" then Some("")
    else if |s| < 4 then None
    else if |s| == 4 && s[3] == '=' then Untail(s)
    else
      var first, rest := Ungroup(s[..4]), Decode(s[4..]);
      if first.None? || rest.None? then None else Some(first.value + rest.value)
  }

  predicate Base64Char(c: char) { c == '=' || Sextet(c) < 64 }

  lemma GroupReads(b: string)
    requires |b| == 3 && Bytes(b)
    ensures Ungroup(Group(b)) == Some(b) && Group(b)[3] != '='
    ensures forall i | 0 <= i < 4 :: Base64Char(Group(b)[i])
  {
    var x, y, z := b[0] as nat, b[1] as nat, b[2] as nat;
    RegroupBytes(x, y, z);
    var p, q, r, u := x / 4, x % 4 * 16 + y / 16, y % 16 * 4 + z / 64, z % 64;
    SymbolReads(p);
    SymbolReads(q);
    SymbolReads(r);
    SymbolReads(u);
    hide Symbol, Sextet;
    assert Group(b) == [Symbol(p), Symbol(q), Symbol(r), Symbol(u)];
    assert b == [x as char, y as char, z as char];
  }

  lemma UngroupPrints(s: string)
    requires |s| == 4 && Ungroup(s).Some?
    ensures Bytes(Ungroup(s).value) && Group(Ungroup(s).value) == s
  {
    var p, q, r, u := Sextet(s[0]), Sextet(s[1]), Sextet(s[2]), Sextet(s[3]);
    Regroup(p, q, r, u);
    hide Symbol, Sextet;
    assert s == [s[0], s[1], s[2], s[3]];
  }

  lemma TailReads(b: string)
    requires 1 <= |b| <= 2 && Bytes(b)
    ensures Untail(Tail(b)) == Some(b)
    ensures forall i | 0 <= i < 4 :: Base64Char(Tail(b)[i])
  {
    var x := b[0] as nat;
    SymbolReads(x / 4);
    if |b| == 1 {
      RegroupBytes(x, 0, 0);
      SymbolReads(x % 4 * 16);
      hide Symbol, Sextet;
      assert b == [x as char];
    } else {
      var y := b[1] as nat;
      RegroupBytes(x, y, 0);
      SymbolReads(x % 4 * 16 + y / 16);
      SymbolReads(y % 16 * 4);
      hide Symbol, Sextet;
      assert b == [x as char, y as char];
    }
  }

  lemma OneByte(p: nat, q: nat)
    requires p < 64 && q < 64 && q % 16 == 0
    ensures var x := p * 4 + q / 16; x < 256 && x / 4 == p && x % 4 * 16 == q
  {
  }

  lemma TwoBytes(p: nat, q: nat, r: nat)
    requires p < 64 && q < 64 && r < 64 && r % 4 == 0
    ensures var x, y := p * 4 + q / 16, q % 16 * 16 + r / 4;
            x < 256 && y < 256 && x / 4 == p && x % 4 * 16 + y / 16 == q && y % 16 * 4 == r
  {
    Regroup(p, q, r, 0);
  }

  lemma TailOf(x: nat, y: nat)
    requires x < 256 && y < 256
    ensures Tail([x as char]) == [Symbol(x / 4), Symbol(x % 4 * 16), '=', '=']
    ensures Tail([x as char, y as char]) == [Symbol(x / 4), Symbol(x % 4 * 16 + y / 16), Symbol(y % 16 * 4), '=']
  {
    hide Symbol;
  }

  lemma UntailPrints(s: string)
    requires |s| == 4 && s[3] == '=' && Untail(s).Some?
    ensures 1 <= |Untail(s).value| <= 2 && Bytes(Untail(s).value) && Tail(Untail(s).value) == s
  {
    hide Symbol, Tail;
    var p, q, r := Sextet(s[0]), Sextet(s[1]), Sextet(s[2]);
    assert p < 64 && q < 64;
    assert s == [s[0], s[1], s[2], s[3]];
    if s[2] == '=' {
      OneByte(p, q);
      TailOf(p * 4 + q / 16, 0);
    } else {
      TwoBytes(p, q, r);
      TailOf(p * 4 + q / 16, q % 16 * 16 + r / 4);
    }
    hide Sextet;
  }

  lemma RegroupBytes(x: nat, y: nat, z: nat)
    requires x < 256 && y < 256 && z < 256
    ensures var p, q, r, u := x / 4, x % 4 * 16 + y / 16, y % 16 * 4 + z / 64, z % 64;
            && p < 64 && q < 64 && r < 64 && u < 64
            && p * 4 + q / 16 == x && q % 16 * 16 + r / 4 == y && r % 4 * 64 + u == z
  {
  }

  lemma Regroup(p: nat, q: nat, r: nat, u: nat)
    requires p < 64 && q < 64 && r < 64 && u < 64
    ensures var x, y, z := p * 4 + q / 16, q % 16 * 16 + r / 4, r % 4 * 64 + u;
            x / 4 == p && x % 4 * 16 + y / 16 == q && y % 16 * 4 + z / 64 == r && z % 64 == u
  {
  }

  /** Four symbols for every three bytes begun. */
  lemma {:induction false} EncodeShape(b: string)
    requires Bytes(b)
    ensures |Encode(b)| == (|b| + 2) / 3 * 4
    ensures forall i | 0 <= i < |Encode(b)| :: Base64Char(Encode(b)[i])
  {
    hide Group, Tail, Base64Char;
    if |b| >= 3 {
      var first, rest := Group(b[..3]), Encode(b[3..]);
      GroupReads(b[..3]);
      EncodeShape(b[3..]);
      assert Encode(b) == first + rest;
    } else if b != [] {
      TailReads(b);
    }
  }

  /** What is encoded is read back. */
  lemma {:induction false} DecodeEncode(b: string)
    requires Bytes(b)
    ensures Decode(Encode(b)) == Some(b)
  {
    hide Group, Ungroup, Tail, Untail, Base64Char;
    if |b| >= 3 {
      var first, rest := Group(b[..3]), Encode(b[3..]);
      GroupReads(b[..3]);
      DecodeEncode(b[3..]);
      var s := first + rest;
      assert s[..4] == first && s[4..] == rest && s[3] == first[3];
      assert Decode(s) == Some(b[..3] + b[3..]);
      assert b == b[..3] + b[3..];
    } else if b != [] {
      TailReads(b);
    }
  }

  /** Strict decoding accepts one text per byte string. */
  lemma {:induction false} EncodeDecode(s: string)
    requires Decode(s).Some?
    ensures Bytes(Decode(s).value) && Encode(Decode(s).value) == s
  {
    hide Group, Ungroup, Tail, Untail;
    if s == "" {
    } else if |s| == 4 && s[3] == '=' {
      UntailPrints(s);
    } else {
      var first, rest := Ungroup(s[..4]).value, Decode(s[4..]).value;
      UngroupPrints(s[..4]);
      EncodeDecode(s[4..]);
      assert (first + rest)[..3] == first && (first + rest)[3..] == rest;
      assert s == s[..4] + s[4..];
    }
  }

  /** The alphabet: capitals, small letters, digits, then plus and slash. */
  lemma AlphabetRuns(v: nat)
    requires v < 64
    ensures Symbol(0) == 'A' && Symbol(25) == 'Z' && Symbol(26) == 'a' && Symbol(51) == 'z'
    ensures Symbol(52) == '0' && Symbol(61) == '9' && Symbol(62) == '+' && Symbol(63) == '/'
    ensures v < 61 && v != 25 && v != 51 ==> Symbol(v + 1) as int == Symbol(v) as int + 1
  {
  }

  /** Each group of four symbols spells the 24 bits of its three bytes. */
  lemma GroupBits(b: string)
    requires |b| == 3 && Bytes(b)
    ensures var s := Group(b);
            ((Sextet(s[0]) * 64 + Sextet(s[1])) * 64 + Sextet(s[2])) * 64 + Sextet(s[3]) ==
            (b[0] as nat * 256 + b[1] as nat) * 256 + b[2] as nat
  {
    var x, y, z := b[0] as nat, b[1] as nat, b[2] as nat;
    RegroupBytes(x, y, z);
    SymbolReads(x / 4);
    SymbolReads(x % 4 * 16 + y / 16);
    SymbolReads(y % 16 * 4 + z / 64);
    SymbolReads(z % 64);
    hide Symbol, Sextet;
  }

  lemma TailBits(b: string)
    requires 1 <= |b| <= 2 && Bytes(b)
    ensures |b| == 1 ==> Tail(b)[2..] == "==" && Sextet(Tail(b)[0]) * 64 + Sextet(Tail(b)[1]) == b[0] as nat * 16
    ensures |b| == 2 ==>
              Tail(b)[3..] == "=" &&
              (Sextet(Tail(b)[0]) * 64 + Sextet(Tail(b)[1])) * 64 + Sextet(Tail(b)[2]) == (b[0] as nat * 256 + b[1] as nat) * 4
  {
    var x := b[0] as nat;
    SymbolReads(x / 4);
    if |b| == 1 {
      SymbolReads(x % 4 * 16);
    } else {
      var y := b[1] as nat;
      RegroupBytes(x, y, 0);
      SymbolReads(x % 4 * 16 + y / 16);
      SymbolReads(y % 16 * 4);
    }
    hide Symbol, Sextet;
  }

  /** The groups stand in the order of the bytes. */
  lemma {:induction false} EncodeAt(b: string, k: nat)
    requires Bytes(b) && 3 * k < |b|
    ensures 4 * k + 4 <= |Encode(b)|
    ensures Encode(b)[4 * k..4 * k + 4] == if |b| - 3 * k < 3 then Tail(b[3 * k..]) else Group(b[3 * k..3 * k + 3])
  {
    hide Group, Tail;
    if k > 0 {
      EncodeAt(b[3..], k - 1);
      var first := Group(b[..3]);
      assert Encode(b)[4 * k..4 * k + 4] == Encode(b[3..])[4 * k - 4..4 * k];
      assert b[3..][3 * (k - 1)..] == b[3 * k..];
      if |b| - 3 * k >= 3 {
        assert b[3..][3 * (k - 1)..3 * (k - 1) + 3] == b[3 * k..3 * k + 3];
      }
    }
  }
}
