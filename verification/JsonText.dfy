/** Reading JSON text (RFC 8259) the way `serde_json` does, and the compact documents it reads back. */
module JsonText {
  import opened Wrappers
  import opened JsonValues
  import opened Text
  import Unicode

  // ---- Strings ----

  predicate IsAnyHex(c: char) { IsHex(c) || 'A' <= c <= 'F' }

  function HexDigit(c: char): (v: nat)
    requires IsAnyHex(c)
    ensures v < 16
  {
    if IsDigit(c) then (c - '0') as nat else if c <= 'F' then (c - 'A') as nat + 10 else (c - 'a') as nat + 10
  }

  /** Four hexadecimal digits. */
  function CodeUnit(s: string): (r: Option<nat>)
    ensures r.Some? ==> |s| >= 4 && r.value < 0x1_0000
  {
    if |s| >= 4 && IsAnyHex(s[0]) && IsAnyHex(s[1]) && IsAnyHex(s[2]) && IsAnyHex(s[3])
    then Some(((HexDigit(s[0]) * 16 + HexDigit(s[1])) * 16 + HexDigit(s[2])) * 16 + HexDigit(s[3]))
    else None
  }

  /** A `\u` escape after its `u`: a basic code point, or a surrogate pair written as two escapes. */
  function UnicodeEscape(s: string): (r: Option<(string, string)>)
    ensures r.Some? ==> |r.value.0| + |r.value.1| <= |s| && |r.value.1| < |s|
  {
    match CodeUnit(s)
    case None => None
    case Some(hi) =>
      if !(0xD800 <= hi < 0xE000) then Some((Unicode.EncodeChar(hi as char), s[4..]))
      else if hi < 0xDC00 && |s| >= 10 && s[4] == '\\' && s[5] == 'u' then
        match CodeUnit(s[6..])
        case None => None
        case Some(lo) =>
          if 0xDC00 <= lo < 0xE000 then Some((Unicode.EncodeChar((0x1_0000 + (hi - 0xD800) * 1024 + (lo - 0xDC00)) as char), s[10..]))
          else None
      else None
  }

  /** An escape after its backslash: the bytes it stands for and the text that follows. */
  function Escape(s: string): (r: Option<(string, string)>)
    ensures r.Some? ==> |r.value.0| + |r.value.1| <= |s| && |r.value.1| < |s|
  {
    if s == "" then None
    else
      var c, rest := s[0], s[1..];
      if c == '"' || c == '\\' || c == '/' then Some(([c], rest))
      else if c == 'b' then Some(([8 as char], rest))
      else if c == 'f' then Some(([12 as char], rest))
      else if c == 'n' then Some(("\n", rest))
      else if c == 'r' then Some(("\r", rest))
      else if c == 't' then Some(("\t", rest))
      else if c == 'u' then UnicodeEscape(rest)
      else None
  }

  /** The short escapes. */
  lemma ShortEscapes(c: char, rest: string)
    ensures c in "\"\\/" ==> Escape([c] + rest) == Some(([c], rest))
    ensures Escape("n" + rest) == Some(("\n", rest)) && Escape("t" + rest) == Some(("\t", rest)) && Escape("r" + rest) == Some(("\r", rest))
    ensures Escape("b" + rest) == Some(([8 as char], rest)) && Escape("f" + rest) == Some(([12 as char], rest))
    ensures c !in "\"\\/bfnrtu" ==> Escape([c] + rest).None?
  {
    assert ([c] + rest)[1..] == rest && ("n" + rest)[1..] == rest && ("t" + rest)[1..] == rest && ("r" + rest)[1..] == rest;
    assert ("b" + rest)[1..] == rest && ("f" + rest)[1..] == rest;
    var all := "\"\\/bfnrtu";
    assert all[0] == '"' && all[1] == '\\' && all[2] == '/' && all[3] == 'b' && all[4] == 'f' && all[5] == 'n';
    assert all[6] == 'r' && all[7] == 't' && all[8] == 'u';
    hide UnicodeEscape;
  }

  /** The contents of a string up to its closing quote, and what follows the quote. */
  function StringBody(s: string): (r: Option<(string, string)>)
    ensures r.Some? ==> |r.value.0| + |r.value.1| < |s|
    decreases |s|
  {
    if s == "" then None
    else if s[0] == '"' then Some(("", s[1..]))
    else if s[0] == '\\' then
      var e := Escape(s[1..]);
      if e.None? then None
      else
        var more := StringBody(e.value.1);
        if more.None? then None else Some((e.value.0 + more.value.0, more.value.1))
    else if s[0] < ' ' then None
    else
      var more := StringBody(s[1..]);
      if more.None? then None else Some(([s[0]] + more.value.0, more.value.1))
  }

  // ---- Numbers ----

  /** The longest run of digits `s` starts with. */
  function LeadingDigits(s: string): (d: string)
    ensures d <= s && AllDigits(d)
  {
    if s != "" && IsDigit(s[0]) then [s[0]] + LeadingDigits(s[1..]) else ""
  }

  /** The length of an optional fraction and exponent; `None` if one is begun and not completed. */
  function FractionLength(s: string): (r: Option<nat>)
    ensures r.Some? ==> r.value <= |s|
  {
    var fraction := if s != "" && s[0] == '.' then 1 + |LeadingDigits(s[1..])| else 0;
    if fraction == 1 then None
    else
      var e := s[fraction..];
      if e == "" || (e[0] != 'e' && e[0] != 'E') then Some(fraction)
      else
        var sign := if |e| > 1 && (e[1] == '+' || e[1] == '-') then 2 else 1;
        var digits := |LeadingDigits(e[sign..])|;
        if digits == 0 then None else Some(fraction + sign + digits)
  }


  function NumberValue(negative: bool, digits: string, fractional: bool, text: string): Json
    requires AllDigits(digits)
  {
    var v := ValueOf(digits);
    if !fractional && !negative && v <= U64_MAX then Int(v)
    else if !fractional && negative && 0 < v <= 0x8000_0000_0000_0000 then Int(-(v as int))
    else Float(text)
  }

  function Number(s: string): (r: Option<(Json, string)>)
    ensures r.Some? ==> |r.value.1| < |s| && (r.value.0.Int? || r.value.0.Float?)
  {
    var negative := s != "" && s[0] == '-';
    var body := if negative then s[1..] else s;
    var digits := LeadingDigits(body);
    if !Numeral(digits) then None
    else
      var tail := FractionLength(body[|digits|..]);
      if tail.None? then None
      else
        var n := |s| - |body| + |digits| + tail.value;
        Some((NumberValue(negative, digits, tail.value > 0, s[..n]), s[n..]))
  }

  // ---- Values ----

  function SkipSpace(s: string): (r: string)
    ensures |r| <= |s|
  {
    if s != "" && (s[0] == ' ' || s[0] == '\t' || s[0] == '\n' || s[0] == '\r') then SkipSpace(s[1..]) else s
  }

  function Literal(s: string, word: string, j: Json): (r: Option<(Json, string)>)
    requires word != "" && (j.Bool? || j.Null?)
    ensures r.Some? ==> |r.value.1| < |s| && r.value.0 == j
  {
    if word <= s then Some((j, s[|word|..])) else None
  }

  /** Strings, and strings in arrays, are never longer than the text they are read from. */
  ghost predicate Bounded(j: Json, n: nat) {
    (j.Str? ==> |j.s| <= n) && (j.Arr? ==> StringsBounded(j.items, n))
  }

  ghost predicate StringsBounded(items: seq<Json>, n: nat) {
    forall i | 0 <= i < |items| :: items[i].Str? ==> |items[i].s| <= n
  }

  /** One value after optional white space, and the text that follows it. */
  function Value(s: string): (r: Option<(Json, string)>)
    ensures r.Some? ==> |r.value.1| < |s| && Bounded(r.value.0, |s|)
    decreases |s|, 2
  {
    var s := SkipSpace(s);
    if s == "" then None
    else if s[0] == '"' then
      var body := StringBody(s[1..]);
      if body.None? then None else Some((Str(body.value.0), body.value.1))
    else if s[0] == '[' then
      var inner := SkipSpace(s[1..]);
      if inner != "" && inner[0] == ']' then Some((Arr([]), inner[1..]))
      else
        var items := Elements(s[1..]);
        if items.None? then None else Some((Arr(items.value.0), items.value.1))
    else if s[0] == '{' then
      var inner := SkipSpace(s[1..]);
      if inner != "" && inner[0] == '}' then Some((Obj(map[]), inner[1..]))
      else
        var fields := Members(s[1..]);
        if fields.None? then None else Some((Obj(fields.value.0), fields.value.1))
    else if s[0] == 't' then Literal(s, "true", Bool(true))
    else if s[0] == 'f' then Literal(s, "false", Bool(false))
    else if s[0] == 'n' then Literal(s, "null", Null)
    else Number(s)
  }

  /** The elements of a non-empty array, through the closing bracket. */
  function Elements(s: string): (r: Option<(seq<Json>, string)>)
    ensures r.Some? ==> |r.value.1| < |s| && StringsBounded(r.value.0, |s|)
    decreases |s|, 3
  {
    var first := Value(s);
    if first.None? then None
    else
      var rest := SkipSpace(first.value.1);
      if rest == "" then None
      else if rest[0] == ']' then Some(([first.value.0], rest[1..]))
      else if rest[0] == ',' then
        var more := Elements(rest[1..]);
        if more.None? then None else Some(([first.value.0] + more.value.0, more.value.1))
      else None
  }

  /** The members of a non-empty object, through the closing brace; a repeated key keeps its last value. */
  function Members(s: string): (r: Option<(map<string, Json>, string)>)
    ensures r.Some? ==> |r.value.1| < |s|
    decreases |s|, 3
  {
    var s := SkipSpace(s);
    if s == "" || s[0] != '"' then None
    else
      var key := StringBody(s[1..]);
      if key.None? then None
      else
        var colon := SkipSpace(key.value.1);
        if colon == "" || colon[0] != ':' then None
        else
          var value := Value(colon[1..]);
          if value.None? then None
          else
            var rest := SkipSpace(value.value.1);
            if rest == "" then None
            else if rest[0] == '}' then Some((map[key.value.0 := value.value.0], rest[1..]))
            else if rest[0] == ',' then
              var more := Members(rest[1..]);
              if more.None? then None
              else Some((map[key.value.0 := value.value.0] + more.value.0, more.value.1))
            else None
  }

  /** `serde_json::from_str`: one value and nothing but white space after it. */
  function FromStr(s: string): (r: Option<Json>)
    ensures r.Some? ==> Bounded(r.value, |s|)
  {
    var v := Value(s);
    if v.None? || SkipSpace(v.value.1) != "" then None else Some(v.value.0)
  }

  // ---- Compact documents ----

  datatype Doc = Text(s: string) | Num(n: nat) | List(items: seq<Doc>) | Record(members: seq<Member>)

  datatype Member = Member(key: string, doc: Doc)

  function Quoted(s: string): string { "\"" + s + "\"" }

  function Field(key: string, value: string): string { Quoted(key) + ":" + value }

  function Print(d: Doc): string
    decreases d
  {
    match d
    case Text(s) => Quoted(s)
    case Num(n) => Decimal(n)
    case List(items) => "[" + PrintItems(items)
    case Record(members) => "{" + PrintMembers(members)
  }

  function PrintItems(items: seq<Doc>): string
    decreases items
  {
    if items == [] then "]"
    else Print(items[0]) + (if |items| == 1 then "]" else "," + PrintItems(items[1..]))
  }

  function PrintMembers(members: seq<Member>): string
    decreases members
  {
    if members == [] then "}"
    else Field(members[0].key, Print(members[0].doc)) + (if |members| == 1 then "}" else "," + PrintMembers(members[1..]))
  }

  function Meaning(d: Doc): Json
    decreases d
  {
    match d
    case Text(s) => Str(s)
    case Num(n) => Int(n)
    case List(items) => Arr(ItemMeanings(items))
    case Record(members) => Obj(MemberMeanings(members))
  }

  function ItemMeanings(items: seq<Doc>): seq<Json>
    decreases items
  {
    if items == [] then [] else [Meaning(items[0])] + ItemMeanings(items[1..])
  }

  function MemberMeanings(members: seq<Member>): map<string, Json>
    decreases members
  {
    if members == [] then map[]
    else map[members[0].key := Meaning(members[0].doc)] + MemberMeanings(members[1..])
  }

  predicate IsPlain(c: char) { c != '"' && c != '\\' && c >= ' ' }

  /** No character of `s` needs escaping. */
  predicate Plain(s: string) { forall i | 0 <= i < |s| :: IsPlain(s[i]) }

  predicate PlainDoc(d: Doc)
    decreases d
  {
    match d
    case Text(s) => Plain(s)
    case Num(n) => n <= U64_MAX
    case List(items) => forall i | 0 <= i < |items| :: PlainDoc(items[i])
    case Record(members) => forall i | 0 <= i < |members| :: Plain(members[i].key) && PlainDoc(members[i].doc)
  }

  // ---- Reading a compact document back ----

  lemma {:induction false} PlainBody(s: string, rest: string)
    requires Plain(s)
    ensures StringBody(s + "\"" + rest) == Some((s, rest))
  {
    var text := s + "\"" + rest;
    if s != "" {
      PlainBody(s[1..], rest);
      assert text[1..] == s[1..] + "\"" + rest;
      assert s == [s[0]] + s[1..];
    } else {
      assert text[1..] == rest;
    }
  }

  lemma {:induction false} DigitsFound(d: string, rest: string)
    requires AllDigits(d) && (rest == "" || !IsDigit(rest[0]))
    ensures LeadingDigits(d + rest) == d
  {
    if d == "" {
      assert d + rest == rest;
    } else {
      DigitsFound(d[1..], rest);
      assert (d + rest)[1..] == d[1..] + rest;
      assert d == [d[0]] + d[1..];
    }
  }

  /** What may follow a number: the end, or a character that cannot continue it. */
  predicate EndsNumber(rest: string) {
    rest == "" || (!IsDigit(rest[0]) && rest[0] != '.' && rest[0] != 'e' && rest[0] != 'E')
  }

  lemma {:induction false} NoFraction(rest: string)
    requires EndsNumber(rest)
    ensures FractionLength(rest) == Some(0)
  {
  }

  lemma {:induction false} DecimalNumber(n: nat, rest: string)
    requires n <= U64_MAX && EndsNumber(rest)
    ensures Number(Decimal(n) + rest) == Some((Int(n), rest))
  {
    hide Decimal, LeadingDigits, ValueOf, FractionLength;
    var d := Decimal(n);
    var s := d + rest;
    DecimalReads(n);
    DigitsFound(d, rest);
    NoFraction(rest);
    hide EndsNumber;
    assert IsDigit(d[0]) && s[0] == d[0] && s[|d|..] == rest;
  }

  lemma {:induction false} NumberReads(n: nat, rest: string)
    requires n <= U64_MAX && EndsNumber(rest)
    ensures Value(Decimal(n) + rest) == Some((Int(n), rest))
  {
    hide Decimal, Number, Elements, Members, StringBody, ValueOf, Literal, EndsNumber;
    DecimalReads(n);
    DecimalNumber(n, rest);
    var s := Decimal(n) + rest;
    assert IsDigit(s[0]) && SkipSpace(s) == s;
    hide SkipSpace;
  }

  lemma TextReads(t: string, rest: string)
    requires Plain(t)
    ensures Value(Quoted(t) + rest) == Some((Str(t), rest))
  {
    PlainBody(t, rest);
    var s := Quoted(t) + rest;
    hide Number, Elements, Members, StringBody, Literal;
    assert s[1..] == t + "\"" + rest;
    assert SkipSpace(s) == s;
  }

  lemma ListReads(text: string, items: seq<Json>, rest: string)
    requires Elements(text) == Some((items, rest)) && text != "" && text[0] > ' ' && text[0] != ']'
    ensures Value("[" + text) == Some((Arr(items), rest))
  {
    hide Number, Elements, Members, StringBody, Literal;
    assert ("[" + text)[1..] == text;
    assert SkipSpace("[" + text) == "[" + text;
  }

  lemma RecordReads(text: string, fields: map<string, Json>, rest: string)
    requires Members(text) == Some((fields, rest)) && text != "" && text[0] == '"'
    ensures Value("{" + text) == Some((Obj(fields), rest))
  {
    hide Number, Elements, Members, StringBody, Literal;
    assert ("{" + text)[1..] == text;
    assert SkipSpace("{" + text) == "{" + text;
  }

  lemma EmptyReads(rest: string)
    ensures Value("[]" + rest) == Some((Arr([]), rest)) && Value("{}" + rest) == Some((Obj(map[]), rest))
  {
    hide Number, Elements, Members, StringBody, Literal;
    var l, r := "[]" + rest, "{}" + rest;
    assert l[1..] == "]" + rest && r[1..] == "}" + rest;
    assert SkipSpace(l) == l && SkipSpace(r) == r && SkipSpace(l[1..]) == l[1..] && SkipSpace(r[1..]) == r[1..];
    assert l[1..][1..] == rest && r[1..][1..] == rest;
  }

  lemma ElementsStep(s: string, v: Json, sep: char, t: string)
    requires Value(s) == Some((v, [sep] + t))
    ensures sep == ']' ==> Elements(s) == Some(([v], t))
    ensures sep == ',' && Elements(t).Some? ==> Elements(s) == Some(([v] + Elements(t).value.0, Elements(t).value.1))
  {
    hide Value;
    assert sep > ' ' ==> SkipSpace([sep] + t) == [sep] + t;
    assert ([sep] + t)[1..] == t;
  }

  /** A key and its colon. */
  lemma {:induction false} KeyReads(key: string, s: string)
    requires Plain(key)
    ensures var text, colon := Quoted(key) + ":" + s, ":" + s;
            && SkipSpace(text) == text && text != "" && text[0] == '"' && StringBody(text[1..]) == Some((key, colon))
            && SkipSpace(colon) == colon && colon[1..] == s
  {
    var text, colon := Quoted(key) + ":" + s, ":" + s;
    PlainBody(key, colon);
    hide StringBody, Plain;
    assert text[0] == '"' && text[1..] == key + "\"" + colon;
  }

  lemma {:induction false} SeparatorReads(sep: char, t: string)
    requires sep > ' '
    ensures SkipSpace([sep] + t) == [sep] + t && ([sep] + t)[1..] == t
  {
  }

  lemma {:induction false} MembersStep(key: string, s: string, v: Json, sep: char, t: string)
    requires Plain(key) && Value(s) == Some((v, [sep] + t))
    ensures var text := Quoted(key) + ":" + s;
            && (sep == '}' ==> Members(text) == Some((map[key := v], t)))
            && (sep == ',' && Members(t).Some? ==>
                  Members(text) == Some((map[key := v] + Members(t).value.0, Members(t).value.1)))
  {
    hide Value, StringBody, SkipSpace, Plain, Quoted;
    KeyReads(key, s);
    if sep > ' ' {
      SeparatorReads(sep, t);
    }
  }

  lemma {:induction false} DocReads(d: Doc, rest: string)
    requires PlainDoc(d) && (d.Num? ==> EndsNumber(rest))
    ensures Value(Print(d) + rest) == Some((Meaning(d), rest))
    decreases d, 1
  {
    hide Value, Elements, Members;
    match d
    case Num(n) => NumberReads(n, rest);
    case Text(t) => TextReads(t, rest);
    case List(items) =>
      if items == [] {
        EmptyReads(rest);
        assert Print(d) == "[]";
      } else {
        StartsVisibly(items[0]);
        ItemsRead(items, rest);
        ListReads(PrintItems(items) + rest, ItemMeanings(items), rest);
        assert Print(d) + rest == "[" + (PrintItems(items) + rest);
      }
    case Record(members) =>
      if members == [] {
        EmptyReads(rest);
        assert Print(d) == "{}";
      } else {
        MembersRead(members, rest);
        RecordReads(PrintMembers(members) + rest, MemberMeanings(members), rest);
        assert Print(d) + rest == "{" + (PrintMembers(members) + rest);
      }
  }

  /** A printed document starts with a character that is neither white space nor a closing bracket. */
  lemma StartsVisibly(d: Doc)
    requires PlainDoc(d)
    ensures Print(d) != "" && Print(d)[0] > ' ' && Print(d)[0] != ']'
  {
    if d.Num? {
      DecimalReads(d.n);
    }
  }

  lemma {:induction false} ItemsRead(items: seq<Doc>, rest: string)
    requires items != [] && forall i | 0 <= i < |items| :: PlainDoc(items[i])
    ensures Elements(PrintItems(items) + rest) == Some((ItemMeanings(items), rest))
    decreases items, 0
  {
    hide Value, Elements, Print, Meaning, PlainDoc;
    var s := PrintItems(items) + rest;
    var sep, t := if |items| == 1 then ']' else ',', if |items| == 1 then rest else PrintItems(items[1..]) + rest;
    assert s == Print(items[0]) + ([sep] + t);
    DocReads(items[0], [sep] + t);
    ElementsStep(s, Meaning(items[0]), sep, t);
    if |items| > 1 {
      ItemsRead(items[1..], rest);
    } else {
      assert items[1..] == [] && ItemMeanings(items) == [Meaning(items[0])];
    }
  }

  lemma {:induction false} MembersRead(members: seq<Member>, rest: string)
    requires members != [] && forall i | 0 <= i < |members| :: Plain(members[i].key) && PlainDoc(members[i].doc)
    ensures Members(PrintMembers(members) + rest) == Some((MemberMeanings(members), rest))
    decreases members, 0
  {
    hide Value, Members, Print, Meaning, PlainDoc, Plain, Quoted;
    var key, d := members[0].key, members[0].doc;
    var sep, t := if |members| == 1 then '}' else ',', if |members| == 1 then rest else PrintMembers(members[1..]) + rest;
    var value := Print(d) + ([sep] + t);
    assert PrintMembers(members) + rest == Quoted(key) + ":" + value;
    DocReads(d, [sep] + t);
    MembersStep(key, value, Meaning(d), sep, t);
    if |members| > 1 {
      MembersRead(members[1..], rest);
    } else {
      assert members[1..] == [] && MemberMeanings(members) == map[key := Meaning(d)];
    }
  }

  /** Every compact document is read back as the value it spells. */
  lemma PrintedReads(d: Doc)
    requires PlainDoc(d)
    ensures FromStr(Print(d)) == Some(Meaning(d))
  {
    DocReads(d, "");
    assert Print(d) + "" == Print(d);
  }

  // ---- White space outside strings ----

  predicate AsciiSpace(c: char) { c == ' ' || c == '\t' || c == '\n' || c == '\r' || c == 12 as char }

  /** The rest of the text, scanned from the given state, has white space outside a string. */
  function LooseSpace(s: string, inString: bool, escape: bool): bool {
    if s == "" then false
    else if escape then LooseSpace(s[1..], inString, false)
    else if inString then LooseSpace(s[1..], s[0] != '"', s[0] == '\\')
    else if s[0] == '"' then LooseSpace(s[1..], true, false)
    else AsciiSpace(s[0]) || LooseSpace(s[1..], false, false)
  }

  method HasNonStringWhitespace(s: string) returns (r: bool)
    ensures r == LooseSpace(s, false, false)
  {
    var inString, escape := false, false;
    for i := 0 to |s|
      invariant LooseSpace(s, false, false) == LooseSpace(s[i..], inString, escape)
    {
      var c := s[i];
      assert s[i..][1..] == s[i + 1..];
      if escape {
        escape := false;
      } else if inString {
        if c == '\\' {
          escape := true;
        } else if c == '"' {
          inString := false;
        }
      } else if c == '"' {
        inString := true;
      } else if AsciiSpace(c) {
        return true;
      }
    }
    r := false;
  }

  datatype Place = Outside | Inside | Escaped

  /** Where a scan stands after the text. */
  ghost function PlaceAfter(s: string): Place {
    if s == "" then Outside
    else
      var c := s[|s| - 1];
      match PlaceAfter(s[..|s| - 1])
      case Outside => if c == '"' then Inside else Outside
      case Inside => if c == '"' then Outside else if c == '\\' then Escaped else Inside
      case Escaped => Inside
  }

  ghost predicate LooseAt(s: string, i: nat) {
    i < |s| && PlaceAfter(s[..i]).Outside? && s[i] in {' ', '\t', '\n', '\r', 12 as char}
  }

  lemma {:induction false} LooseFrom(s: string, i: nat)
    requires i <= |s|
    ensures var place := PlaceAfter(s[..i]);
            LooseSpace(s[i..], !place.Outside?, place.Escaped?) <==> exists j: nat :: i <= j && LooseAt(s, j)
    decreases |s| - i
  {
    if i < |s| {
      LooseFrom(s, i + 1);
      assert s[i..][1..] == s[i + 1..] && s[..i + 1][..i] == s[..i] && s[i..][0] == s[i];
      hide LooseAt;
      assert LooseAt(s, i) <==> PlaceAfter(s[..i]).Outside? && AsciiSpace(s[i]) by {
        SpaceAt(s, i);
      }
    }
  }

  lemma SpaceAt(s: string, i: nat)
    requires i < |s|
    ensures LooseAt(s, i) <==> PlaceAfter(s[..i]).Outside? && AsciiSpace(s[i])
  {
    hide PlaceAfter;
  }

  /** White space is found exactly where there is some outside the strings. */
  lemma LooseSpaceIff(s: string)
    ensures LooseSpace(s, false, false) <==> exists i: nat :: LooseAt(s, i)
  {
    LooseFrom(s, 0);
    assert s[..0] == "" && s[0..] == s;
    hide LooseSpace, LooseAt;
  }

  lemma {:induction false} PlainInString(s: string, rest: string)
    requires Plain(s)
    ensures LooseSpace(s + "\"" + rest, true, false) == LooseSpace(rest, false, false)
  {
    var text := s + "\"" + rest;
    if s == "" {
      assert text[1..] == rest;
    } else {
      PlainInString(s[1..], rest);
      assert text[1..] == s[1..] + "\"" + rest;
    }
  }

  lemma QuotedCompact(s: string, rest: string)
    requires Plain(s)
    ensures LooseSpace(Quoted(s) + rest, false, false) == LooseSpace(rest, false, false)
  {
    PlainInString(s, rest);
    assert (Quoted(s) + rest)[1..] == s + "\"" + rest;
  }

  /** A stretch of text that has neither quotes nor white space. */
  lemma {:induction false} SolidCompact(s: string, rest: string)
    requires forall i | 0 <= i < |s| :: s[i] > ' ' && s[i] != '"'
    ensures LooseSpace(s + rest, false, false) == LooseSpace(rest, false, false)
  {
    if s == "" {
      assert s + rest == rest;
    } else {
      SolidCompact(s[1..], rest);
      assert (s + rest)[1..] == s[1..] + rest;
    }
  }

  lemma {:induction false} DocCompact(d: Doc, rest: string)
    requires PlainDoc(d)
    ensures LooseSpace(Print(d) + rest, false, false) == LooseSpace(rest, false, false)
    decreases d, 1
  {
    hide LooseSpace;
    match d
    case Num(n) =>
      DecimalReads(n);
      SolidCompact(Decimal(n), rest);
    case Text(t) => QuotedCompact(t, rest);
    case List(items) =>
      assert Print(d) + rest == "[" + (PrintItems(items) + rest);
      SolidCompact("[", PrintItems(items) + rest);
      ItemsCompact(items, rest);
    case Record(members) =>
      assert Print(d) + rest == "{" + (PrintMembers(members) + rest);
      SolidCompact("{", PrintMembers(members) + rest);
      MembersCompact(members, rest);
  }

  lemma {:induction false} ItemsCompact(items: seq<Doc>, rest: string)
    requires forall i | 0 <= i < |items| :: PlainDoc(items[i])
    ensures LooseSpace(PrintItems(items) + rest, false, false) == LooseSpace(rest, false, false)
    decreases items, 0
  {
    hide LooseSpace, Print, PlainDoc;
    SolidCompact("]", rest);
    if items != [] {
      var tail := if |items| == 1 then "]" + rest else "," + (PrintItems(items[1..]) + rest);
      assert PrintItems(items) + rest == Print(items[0]) + tail;
      DocCompact(items[0], tail);
      if |items| > 1 {
        ItemsCompact(items[1..], rest);
        SolidCompact(",", PrintItems(items[1..]) + rest);
      }
    }
  }

  lemma {:induction false} MembersCompact(members: seq<Member>, rest: string)
    requires forall i | 0 <= i < |members| :: Plain(members[i].key) && PlainDoc(members[i].doc)
    ensures LooseSpace(PrintMembers(members) + rest, false, false) == LooseSpace(rest, false, false)
    decreases members, 0
  {
    hide LooseSpace, Print, PlainDoc, Plain, Quoted;
    SolidCompact("}", rest);
    if members != [] {
      var key, d := members[0].key, members[0].doc;
      var tail := if |members| == 1 then "}" + rest else "," + (PrintMembers(members[1..]) + rest);
      assert PrintMembers(members) + rest == Quoted(key) + (":" + (Print(d) + tail));
      QuotedCompact(key, ":" + (Print(d) + tail));
      SolidCompact(":", Print(d) + tail);
      DocCompact(d, tail);
      if |members| > 1 {
        MembersCompact(members[1..], rest);
        SolidCompact(",", PrintMembers(members[1..]) + rest);
      }
    }
  }

  /** A compact document has no white space outside its strings. */
  lemma PrintedCompact(d: Doc)
    requires PlainDoc(d)
    ensures !LooseSpace(Print(d), false, false)
  {
    DocCompact(d, "");
    assert Print(d) + "" == Print(d);
  }
}
