/** The Redis wire codec of the relay-bus benchmark: a command printer and a recursive stream reader. */
module Resp {
  import opened Wrappers
  import opened Text
  import Unicode

  /** One character per byte. */
  type Bytes = string

  datatype Value = Str(text: string) | Integer(number: int) | Nil | List(items: seq<Value>)

  datatype Error = EofError | ValueError | UnicodeError | RedisError(message: string)

  /** What a read gives, and the bytes it leaves in the stream. */
  datatype Reply<T> = Reply(result: Result<T, Error>, rest: Bytes)

  const CRLF: Bytes := "\r\n"

  // ---- Python's int() on bytes ----

  predicate IsSpace(c: char) { c == ' ' || '\t' <= c <= '\r' }

  function Strip(s: Bytes): Bytes {
    if s == [] then []
    else if IsSpace(s[0]) then Strip(s[1..])
    else if IsSpace(s[|s| - 1]) then Strip(s[..|s| - 1])
    else s
  }

  /** Digits with single underscores between them. */
  function Unsigned(s: Bytes): Option<nat> {
    if s == [] || !IsDigit(s[|s| - 1]) then None
    else
      var n, digit := |s| - 1, (s[|s| - 1] - '0') as nat;
      if n == 0 then Some(digit)
      else
        var high := Unsigned(if s[n - 1] == '_' then s[..n - 1] else s[..n]);
        if high.None? then None else Some(high.value * 10 + digit)
  }

  function PyInt(s: Bytes): Option<int> {
    var t := Strip(s);
    if t == [] then None
    else if t[0] == '-' then
      var n := Unsigned(t[1..]);
      var negated: int := if n.None? then 0 else -(n.value as int);
      if n.None? then None else Some(negated)
    else Unsigned(if t[0] == '+' then t[1..] else t)
  }

  // ---- Reading ----

  /** The stream's `readline`: up to and including the first newline, or all there is. */
  function LineLength(s: Bytes): (n: nat)
    ensures n <= |s| && (s != [] ==> n > 0)
  {
    if s == [] then 0 else if s[0] == '\n' then 1 else 1 + LineLength(s[1..])
  }

  function ReadLine(s: Bytes): (r: Reply<Bytes>)
    ensures |r.rest| <= |s|
  {
    var line, rest := s[..LineLength(s)], s[LineLength(s)..];
    if line == [] then Reply(Err(EofError), rest)
    else if |line| < 2 || line[|line| - 2..] != CRLF then Reply(Err(ValueError), rest)
    else Reply(Ok(line[..|line| - 2]), rest)
  }

  function ReadInt(s: Bytes): (r: Reply<int>)
    ensures |r.rest| <= |s|
  {
    var line := ReadLine(s);
    if line.result.Err? then Reply(Err(line.result.error), line.rest)
    else
      var n := PyInt(line.result.value);
      Reply(if n.Some? then Ok(n.value) else Err(ValueError), line.rest)
  }

  function Decoded(b: Bytes): Result<string, Error> {
    var text := Unicode.Decode(b);
    if text.Some? then Ok(text.value) else Err(UnicodeError)
  }

  /** A bulk string of the announced length and its terminator. */
  function ReadBulk(s: Bytes, length: int): (r: Reply<Value>)
    ensures |r.rest| <= |s|
  {
    if length == -1 then Reply(Ok(Nil), s)
    else if length < 0 then Reply(Err(ValueError), s)
    else
      var n := Min(length, |s|);
      var m := Min(n + 2, |s|);
      if n != length || s[n..m] != CRLF then Reply(Err(ValueError), s[m..])
      else
        var text := Decoded(s[..n]);
        Reply(if text.Ok? then Ok(Str(text.value)) else Err(text.error), s[m..])
  }

  function Read(s: Bytes): (r: Reply<Value>)
    ensures |r.rest| <= |s|
    ensures r.result.Ok? ==> |r.rest| < |s|
    decreases |s|, 0
  {
    if s == [] then Reply(Err(EofError), s)
    else if s[0] == '+' || s[0] == '-' then
      var line := ReadLine(s[1..]);
      if line.result.Err? then Reply(Err(line.result.error), line.rest)
      else
        var text := Decoded(line.result.value);
        Reply(if text.Err? then Err(text.error)
              else if s[0] == '+' then Ok(Str(text.value))
              else Err(RedisError(text.value)),
              line.rest)
    else if s[0] == ':' || s[0] == '$' || s[0] == '*' then
      var number := ReadInt(s[1..]);
      if number.result.Err? then Reply(Err(number.result.error), number.rest)
      else
        var n := number.result.value;
        if s[0] == ':' then Reply(Ok(Integer(n)), number.rest)
        else if s[0] == '$' then ReadBulk(number.rest, n)
        else if n == -1 then Reply(Ok(Nil), number.rest)
        else
          var items := ReadMany(number.rest, Max(n, 0));
          Reply(if items.result.Ok? then Ok(List(items.result.value)) else Err(items.result.error), items.rest)
    else Reply(Err(ValueError), s[1..])
  }

  /** `n` values one after the other; the first error ends the reading. */
  function ReadMany(s: Bytes, n: nat): (r: Reply<seq<Value>>)
    ensures |r.rest| <= |s|
    decreases |s|, n + 1
  {
    if n == 0 then Reply(Ok([]), s)
    else
      var first := Read(s);
      if first.result.Err? then Reply(Err(first.result.error), first.rest)
      else
        var others := ReadMany(first.rest, n - 1);
        Reply(if others.result.Ok? then Ok([first.result.value] + others.result.value) else others.result, others.rest)
  }

  // ---- The stream ----

  class Stream {
    var bytes: Bytes

    constructor (bytes: Bytes)
      ensures this.bytes == bytes
    {
      this.bytes := bytes;
    }

    method Take(n: nat) returns (data: Bytes)
      modifies this
      ensures data == old(bytes)[..Min(n, |old(bytes)|)] && bytes == old(bytes)[|data|..]
    {
      var k := Min(n, |bytes|);
      data, bytes := bytes[..k], bytes[k..];
    }

    method TakeLine() returns (r: Result<Bytes, Error>)
      modifies this
      ensures Reply(r, bytes) == ReadLine(old(bytes))
    {
      var line := Take(LineLength(bytes));
      if line == [] {
        return Err(EofError);
      }
      if |line| < 2 || line[|line| - 2..] != CRLF {
        return Err(ValueError);
      }
      r := Ok(line[..|line| - 2]);
    }

    method TakeInt() returns (r: Result<int, Error>)
      modifies this
      ensures Reply(r, bytes) == ReadInt(old(bytes))
    {
      var line := TakeLine();
      if line.Err? {
        return Err(line.error);
      }
      var n := PyInt(line.value);
      r := if n.Some? then Ok(n.value) else Err(ValueError);
    }

    method TakeBulk(length: int) returns (r: Result<Value, Error>)
      modifies this
      ensures Reply(r, bytes) == ReadBulk(old(bytes), length)
    {
      if length == -1 {
        return Ok(Nil);
      }
      if length < 0 {
        return Err(ValueError);
      }
      var data := Take(length);
      var terminator := Take(2);
      if |data| != length || terminator != CRLF {
        return Err(ValueError);
      }
      var text := Decoded(data);
      r := if text.Ok? then Ok(Str(text.value)) else Err(text.error);
    }

    /** `read_resp`: exactly what `Read` says of the bytes in the stream. */
    method ReadResp() returns (r: Result<Value, Error>)
      modifies this
      ensures Reply(r, bytes) == Read(old(bytes))
      decreases |bytes|, 0
    {
      var prefix := Take(1);
      if prefix == [] {
        return Err(EofError);
      }
      if prefix == "+" || prefix == "-" {
        var line := TakeLine();
        if line.Err? {
          return Err(line.error);
        }
        var text := Decoded(line.value);
        if text.Err? {
          return Err(text.error);
        }
        return if prefix == "+" then Ok(Str(text.value)) else Err(RedisError(text.value));
      }
      if prefix != ":" && prefix != "$" && prefix != "*" {
        return Err(ValueError);
      }
      var number := TakeInt();
      if number.Err? {
        return Err(number.error);
      }
      if prefix == ":" {
        return Ok(Integer(number.value));
      }
      if prefix == "$" {
        r := TakeBulk(number.value);
        return;
      }
      if number.value == -1 {
        return Ok(Nil);
      }
      var items := ReadItems(Max(number.value, 0));
      r := if items.Ok? then Ok(List(items.value)) else Err(items.error);
    }

    /** The list comprehension over `range(length)`. */
    method ReadItems(length: nat) returns (r: Result<seq<Value>, Error>)
      modifies this
      ensures Reply(r, bytes) == ReadMany(old(bytes), length)
      decreases |bytes|, length + 1
    {
      hide Read, ReadMany;
      var items := [];
      PrependNothing(ReadMany(bytes, length));
      for i := 0 to length
        invariant |bytes| <= |old(bytes)| && (i > 0 ==> |bytes| < |old(bytes)|)
        invariant ReadMany(old(bytes), length) == Prepended(items, ReadMany(bytes, length - i))
      {
        PrependOne(items, bytes, length - i);
        var item := ReadResp();
        if item.Err? {
          return Err(item.error);
        }
        items := items + [item.value];
      }
      PrependAll(items, bytes);
      r := Ok(items);
    }
  }

  ghost function Prepended(items: seq<Value>, r: Reply<seq<Value>>): Reply<seq<Value>> {
    Reply(if r.result.Ok? then Ok(items + r.result.value) else r.result, r.rest)
  }

  lemma PrependNothing(r: Reply<seq<Value>>)
    ensures Prepended([], r) == r
  {
    assert r.result.Ok? ==> [] + r.result.value == r.result.value;
  }

  lemma PrependAll(items: seq<Value>, s: Bytes)
    ensures Prepended(items, ReadMany(s, 0)) == Reply(Ok(items), s)
  {
    assert items + [] == items;
  }

  lemma PrependOne(items: seq<Value>, s: Bytes, n: nat)
    requires n > 0
    ensures Prepended(items, ReadMany(s, n)) ==
            match Read(s).result
            case Err(e) => Reply(Err(e), Read(s).rest)
            case Ok(item) => Prepended(items + [item], ReadMany(Read(s).rest, n - 1))
  {
    hide Read;
    if Read(s).result.Ok? {
      var others := ReadMany(Read(s).rest, n - 1).result;
      assert others.Ok? ==> items + ([Read(s).result.value] + others.value) == items + [Read(s).result.value] + others.value;
    }
  }

  // ---- Printing ----

  function Printed(n: int): Bytes { if n < 0 then "-" + Decimal(-n) else Decimal(n) }

  function Bulk(text: string): Bytes {
    "$" + Decimal(|Unicode.Encode(text)|) + CRLF + Unicode.Encode(text) + CRLF
  }

  function Bulks(parts: seq<string>): Bytes {
    if parts == [] then [] else Bulks(parts[..|parts| - 1]) + Bulk(parts[|parts| - 1])
  }

  function Command(parts: seq<string>): Bytes { "*" + Decimal(|parts|) + CRLF + Bulks(parts) }

  method EncodeCommand(parts: seq<string>) returns (r: Bytes)
    ensures r == Command(parts)
  {
    hide Decimal, Unicode.Encode;
    r := "*" + Decimal(|parts|) + CRLF;
    ghost var head := r;
    for i := 0 to |parts|
      invariant r == head + Bulks(parts[..i])
    {
      assert parts[..i + 1][..i] == parts[..i];
      var part := Unicode.Encode(parts[i]);
      r := r + ("$" + Decimal(|part|) + CRLF) + part + CRLF;
      assert r == head + (Bulks(parts[..i]) + Bulk(parts[i]));
    }
    assert parts[..|parts|] == parts;
  }

  // ---- Round trip ----

  lemma {:induction false} LineReads(line: Bytes, rest: Bytes)
    requires '\n' !in line
    ensures LineLength(line + CRLF + rest) == |line| + 2
  {
    if line == [] {
      assert (line + CRLF + rest)[1..] == "\n" + rest;
    } else {
      LineReads(line[1..], rest);
      assert (line + CRLF + rest)[1..] == line[1..] + CRLF + rest;
    }
  }

  lemma ReadLineReads(line: Bytes, rest: Bytes)
    requires '\n' !in line
    ensures ReadLine(line + CRLF + rest) == Reply(Ok(line), rest)
  {
    LineReads(line, rest);
    var s := line + CRLF + rest;
    assert s[..|line| + 2] == line + CRLF;
    assert s[|line| + 2..] == rest;
  }

  lemma {:induction false} DigitsRead(s: Bytes)
    requires s != [] && AllDigits(s)
    ensures Unsigned(s) == Some(ValueOf(s))
  {
    if |s| > 1 {
      DigitsRead(s[..|s| - 1]);
    }
  }

  /** Python's reader gives back every printed integer. */
  lemma IntReads(n: int)
    ensures PyInt(Printed(n)) == Some(n) && '\n' !in Printed(n)
  {
    var m: nat := if n < 0 then -n else n;
    DecimalReads(m);
    DigitsRead(Decimal(m));
    hide Decimal, ValueOf, Unsigned;
    assert ("-" + Decimal(m))[1..] == Decimal(m);
  }

  lemma ReadIntReads(n: int, rest: Bytes)
    ensures ReadInt(Printed(n) + CRLF + rest) == Reply(Ok(n), rest)
  {
    IntReads(n);
    ReadLineReads(Printed(n), rest);
  }

  lemma BulkReads(text: string, rest: Bytes)
    ensures Read(Bulk(text) + rest) == Reply(Ok(Str(text)), rest)
  {
    var b := Unicode.Encode(text);
    var s := Bulk(text) + rest;
    var body := b + CRLF + rest;
    hide Unicode.Encode, Unicode.Decode, Decimal, ReadInt;
    assert s[1..] == Printed(|b|) + CRLF + body;
    ReadIntReads(|b|, body);
    assert body[..|b|] == b && body[|b|..|b| + 2] == CRLF && body[|b| + 2..] == rest;
    Unicode.DecodeEncode(text);
  }

  lemma SimpleReads(text: string, rest: Bytes)
    requires '\n' !in text
    ensures Read("+" + Unicode.Encode(text) + CRLF + rest) == Reply(Ok(Str(text)), rest)
  {
    var b := Unicode.Encode(text);
    assert ("+" + b + CRLF + rest)[1..] == b + CRLF + rest;
    NewlineFree(text);
    ReadLineReads(b, rest);
    Unicode.DecodeEncode(text);
    hide Unicode.Encode, Unicode.Decode, ReadLine;
  }

  lemma {:induction false} NewlineFree(text: string)
    requires '\n' !in text
    ensures '\n' !in Unicode.Encode(text)
  {
    if text != [] {
      NewlineFree(text[1..]);
    }
  }

  /** Reading one value after `n` others. */
  lemma {:induction false} ReadOneMore(s: Bytes, n: nat)
    requires ReadMany(s, n).result.Ok? && Read(ReadMany(s, n).rest).result.Ok?
    ensures var last := Read(ReadMany(s, n).rest);
            ReadMany(s, n + 1) == Reply(Ok(ReadMany(s, n).result.value + [last.result.value]), last.rest)
    decreases n
  {
    hide Read;
    if n == 0 {
      PrependOne([], s, 1);
      PrependNothing(ReadMany(s, 1));
      PrependAll([Read(s).result.value], Read(s).rest);
    } else {
      var first, others := Read(s), ReadMany(Read(s).rest, n - 1);
      ReadOneMore(first.rest, n - 1);
      hide ReadMany;
      PrependOne([], s, n);
      PrependOne([], s, n + 1);
      PrependNothing(ReadMany(s, n));
      PrependNothing(ReadMany(s, n + 1));
      var last := Read(others.rest).result.value;
      assert [first.result.value] + (others.result.value + [last]) == [first.result.value] + others.result.value + [last];
    }
  }

  lemma HeadReads(prefix: char, n: int, rest: Bytes)
    ensures var s := [prefix] + Printed(n) + CRLF + rest;
            s[0] == prefix && ReadInt(s[1..]) == Reply(Ok(n), rest)
  {
    ReadIntReads(n, rest);
    assert ([prefix] + Printed(n) + CRLF + rest)[1..] == Printed(n) + CRLF + rest;
  }

  lemma NumberReads(n: int, rest: Bytes)
    ensures Read(":" + Printed(n) + CRLF + rest) == Reply(Ok(Integer(n)), rest)
  {
    HeadReads(':', n, rest);
    hide Printed, ReadInt;
  }

  lemma NullReads(prefix: char, rest: Bytes)
    requires prefix == '$' || prefix == '*'
    ensures Read([prefix] + Printed(-1) + CRLF + rest) == Reply(Ok(Nil), rest)
  {
    HeadReads(prefix, -1, rest);
    hide Printed, ReadInt;
  }

  lemma ArrayReads(n: nat, items: Bytes, rest: Bytes)
    ensures var r := ReadMany(items + rest, n);
            Read("*" + Printed(n) + CRLF + (items + rest)) ==
            Reply(if r.result.Ok? then Ok(List(r.result.value)) else Err(r.result.error), r.rest)
  {
    HeadReads('*', n, items + rest);
    hide Printed, ReadInt, ReadMany;
  }

  /** The protocol's value forms: what a peer may send, apart from errors. */
  datatype Wire =
    | Simple(text: string)
    | Number(number: int)
    | BulkString(text: string)
    | NullBulk
    | NullArray
    | Array(items: seq<Wire>)

  function Sent(w: Wire): Bytes {
    match w
    case Simple(text) => "+" + Unicode.Encode(text) + CRLF
    case Number(n) => ":" + Printed(n) + CRLF
    case BulkString(text) => Bulk(text)
    case NullBulk => "$" + Printed(-1) + CRLF
    case NullArray => "*" + Printed(-1) + CRLF
    case Array(items) => "*" + Printed(|items|) + CRLF + AllSent(items)
  }

  function AllSent(ws: seq<Wire>): Bytes {
    if ws == [] then [] else AllSent(ws[..|ws| - 1]) + Sent(ws[|ws| - 1])
  }

  function Meaning(w: Wire): Value {
    match w
    case Simple(text) => Str(text)
    case Number(n) => Integer(n)
    case BulkString(text) => Str(text)
    case NullBulk => Nil
    case NullArray => Nil
    case Array(items) => List(Meanings(items))
  }

  function Meanings(ws: seq<Wire>): seq<Value> {
    if ws == [] then [] else Meanings(ws[..|ws| - 1]) + [Meaning(ws[|ws| - 1])]
  }

  /** A simple string takes one line. */
  predicate Sendable(w: Wire) {
    match w
    case Simple(text) => '\n' !in text
    case Array(items) => forall i | 0 <= i < |items| :: Sendable(items[i])
    case _ => true
  }

  /** The reader gives back every value, nested to any depth, and takes no byte beyond it. */
  lemma {:induction false} SentReads(w: Wire, rest: Bytes)
    requires Sendable(w)
    ensures Read(Sent(w) + rest) == Reply(Ok(Meaning(w)), rest)
    decreases w, 1, 0
  {
    hide Read, ReadMany, Printed, Unicode.Encode, Bulk;
    var s := Sent(w) + rest;
    match w {
      case Simple(text) =>
        SimpleReads(text, rest);
        assert s == "+" + Unicode.Encode(text) + CRLF + rest;
      case BulkString(text) => BulkReads(text, rest);
      case Number(n) => NumberReads(n, rest);
      case NullBulk => NullReads('$', rest);
      case NullArray => NullReads('*', rest);
      case Array(items) =>
        ItemsRead(w, |items|, rest);
        assert items[..|items|] == items;
        ArrayReads(|items|, AllSent(items), rest);
        assert s == "*" + Printed(|items|) + CRLF + (AllSent(items) + rest);
    }
  }

  lemma OneItemMore(ws: seq<Wire>, n: nat, rest: Bytes)
    requires 0 < n <= |ws|
    ensures AllSent(ws[..n]) + rest == AllSent(ws[..n - 1]) + (Sent(ws[n - 1]) + rest)
    ensures Meanings(ws[..n]) == Meanings(ws[..n - 1]) + [Meaning(ws[n - 1])]
  {
    hide Sent, Meaning;
    assert ws[..n][..n - 1] == ws[..n - 1];
  }

  /** The first `n` items of an array. */
  lemma {:induction false} ItemsRead(w: Wire, n: nat, rest: Bytes)
    requires w.Array? && Sendable(w) && n <= |w.items|
    ensures ReadMany(AllSent(w.items[..n]) + rest, n) == Reply(Ok(Meanings(w.items[..n])), rest)
    decreases w, 0, n
  {
    if n == 0 {
      assert [] + rest == rest;
    } else {
      var item := w.items[n - 1];
      hide Read, ReadMany, Sent, Meaning, AllSent, Meanings;
      ItemsRead(w, n - 1, Sent(item) + rest);
      SentReads(item, rest);
      OneItemMore(w.items, n, rest);
      ReadOneMore(AllSent(w.items[..n]) + rest, n - 1);
    }
  }

  function Strings(parts: seq<string>): seq<Value> {
    seq(|parts|, i requires 0 <= i < |parts| => Str(parts[i]))
  }

  function Wires(parts: seq<string>): seq<Wire> {
    seq(|parts|, i requires 0 <= i < |parts| => BulkString(parts[i]))
  }

  /** A command is an array of bulk strings. */
  lemma {:induction false} BulksAreSent(parts: seq<string>)
    ensures AllSent(Wires(parts)) == Bulks(parts) && Meanings(Wires(parts)) == Strings(parts)
  {
    if parts != [] {
      var n := |parts| - 1;
      BulksAreSent(parts[..n]);
      hide Bulk;
      assert Wires(parts)[..n] == Wires(parts[..n]);
    }
  }

  lemma CommandReads(parts: seq<string>, rest: Bytes)
    ensures Read(Command(parts) + rest) == Reply(Ok(List(Strings(parts))), rest)
  {
    BulksAreSent(parts);
    SentReads(Array(Wires(parts)), rest);
    hide Read, Bulks, Meanings, AllSent;
  }

  function Commands(calls: seq<seq<string>>): Bytes {
    if calls == [] then [] else Commands(calls[..|calls| - 1]) + Command(calls[|calls| - 1])
  }

  function Lists(calls: seq<seq<string>>): seq<Value> {
    seq(|calls|, i requires 0 <= i < |calls| => List(Strings(calls[i])))
  }

  lemma {:induction false} OneCommandMore(calls: seq<seq<string>>, rest: Bytes)
    requires calls != []
    ensures var n := |calls| - 1;
            && Commands(calls) + rest == Commands(calls[..n]) + (Command(calls[n]) + rest)
            && Lists(calls) == Lists(calls[..n]) + [List(Strings(calls[n]))]
  {
    var n := |calls| - 1;
    hide Command, Strings;
    assert Commands(calls) == Commands(calls[..n]) + Command(calls[n]);
  }

  /** Any number of encoded commands read back as their argument lists, and exactly the bytes after them are left. */
  lemma {:induction false} CommandsRead(calls: seq<seq<string>>, rest: Bytes)
    ensures ReadMany(Commands(calls) + rest, |calls|) == Reply(Ok(Lists(calls)), rest)
  {
    if calls == [] {
      assert [] + rest == rest && Lists(calls) == [];
    } else {
      var n := |calls| - 1;
      hide Read, ReadMany, Command, Strings;
      CommandsRead(calls[..n], Command(calls[n]) + rest);
      CommandReads(calls[n], rest);
      OneCommandMore(calls, rest);
      hide Commands, Lists;
      ReadOneMore(Commands(calls) + rest, n);
    }
  }

  lemma StringsTell(a: seq<string>, b: seq<string>)
    requires Strings(a) == Strings(b)
    ensures a == b
  {
    assert |a| == |Strings(a)| == |Strings(b)| == |b|;
    forall i | 0 <= i < |a| ensures a[i] == b[i] {
      assert Strings(a)[i] == Str(a[i]) && Strings(b)[i] == Str(b[i]);
    }
  }

  /** No encoded command begins another: the bytes on the wire tell the arguments and where they end. */
  lemma CommandUnique(a: seq<string>, b: seq<string>, x: Bytes, y: Bytes)
    requires Command(a) + x == Command(b) + y
    ensures a == b && x == y
  {
    CommandReads(a, x);
    CommandReads(b, y);
    hide Read, Command;
    StringsTell(a, b);
  }

  // ---- Errors and what follows ----

  /** An error reply raises its text, and is consumed. */
  lemma ErrorReads(text: string, rest: Bytes)
    requires '\n' !in text
    ensures Read("-" + Unicode.Encode(text) + CRLF + rest) == Reply(Err(RedisError(text)), rest)
  {
    var b := Unicode.Encode(text);
    assert ("-" + b + CRLF + rest)[1..] == b + CRLF + rest;
    NewlineFree(text);
    ReadLineReads(b, rest);
    Unicode.DecodeEncode(text);
    hide Unicode.Encode, Unicode.Decode, ReadLine;
  }

  /** A negative length other than -1 is an empty array, and no bulk string at all. */
  lemma NegativeLengths(n: int, rest: Bytes)
    requires n < -1
    ensures Read("*" + Printed(n) + CRLF + rest) == Reply(Ok(List([])), rest)
    ensures Read("$" + Printed(n) + CRLF + rest) == Reply(Err(ValueError), rest)
  {
    HeadReads('*', n, rest);
    HeadReads('$', n, rest);
    hide Printed, ReadInt;
  }

  /** A bulk string whose bytes are cut short or not followed by the line end is refused, and so is one that is no text. */
  lemma {:induction false} BulkRefused(n: nat, body: Bytes)
    ensures var r := Read("$" + Printed(n) + CRLF + body);
            && (|body| < n || body[n..Min(n + 2, |body|)] != "\r\n" ==>
                  r == Reply(Err(ValueError), body[Min(n + 2, |body|)..]))
            && (n + 2 <= |body| && body[n..n + 2] == "\r\n" && Unicode.Decode(body[..n]).None? ==>
                  r == Reply(Err(UnicodeError), body[n + 2..]))
  {
    var s := "$" + Printed(n) + CRLF + body;
    HeadReads('$', n, body);
    hide Printed, ReadInt, Unicode.Decode, ReadBulk;
    assert Read(s) == ReadBulk(body, n);
    hide Read;
    BulkFails(n, body);
  }

  lemma {:induction false} BulkFails(n: nat, body: Bytes)
    ensures |body| < n || body[n..Min(n + 2, |body|)] != "\r\n" ==>
              ReadBulk(body, n) == Reply(Err(ValueError), body[Min(n + 2, |body|)..])
    ensures n + 2 <= |body| && body[n..n + 2] == "\r\n" && Unicode.Decode(body[..n]).None? ==>
              ReadBulk(body, n) == Reply(Err(UnicodeError), body[n + 2..])
  {
    hide Unicode.Decode;
  }

  lemma NoReply(s: Bytes)
    ensures Read([]) == Reply(Err(EofError), [])
    ensures s != [] && s[0] !in "+-:$*" ==> Read(s) == Reply(Err(ValueError), s[1..])
  {
    assert "+-:$*"[0] == '+' && "+-:$*"[1] == '-' && "+-:$*"[2] == ':' && "+-:$*"[3] == '$' && "+-:$*"[4] == '*';
  }

  lemma {:induction false} LineEnds(s: Bytes)
    requires s != []
    ensures var n := LineLength(s); '\n' !in s[..n - 1] && (s[n - 1] == '\n' || (n == |s| && '\n' !in s))
  {
    if s[0] != '\n' && |s| > 1 {
      LineEnds(s[1..]);
      var n := LineLength(s);
      assert s[..n - 1] == [s[0]] + s[1..][..n - 2];
      assert s == [s[0]] + s[1..];
    }
  }

  /** A line is read exactly up to the first newline, which a carriage return must precede; a closed stream is told apart from a bad line. */
  lemma ReadLineIff(s: Bytes, line: Bytes, rest: Bytes)
    ensures ReadLine(s) == Reply(Ok(line), rest) <==> '\n' !in line && s == line + "\r\n" + rest
    ensures ReadLine(s).result == Err(EofError) <==> s == []
    ensures ReadLine(s).result.Err? && s != [] ==> ReadLine(s).result == Err(ValueError)
  {
    if '\n' !in line && s == line + CRLF + rest {
      ReadLineReads(line, rest);
    }
    if s != [] {
      LineEnds(s);
    }
    if ReadLine(s) == Reply(Ok(line), rest) {
      var n := LineLength(s);
      assert s == s[..n - 2] + s[..n][n - 2..] + s[n..];
      assert s[..n - 1][..n - 2] == line;
    }
    hide LineLength;
  }

  // ---- The forms of an integer ----

  predicate AllSpace(s: Bytes) { forall i | 0 <= i < |s| :: s[i] in {' ', '\t', '\n', 11 as char, 12 as char, '\r'} }

  /** White space around an integer is ignored. */
  lemma {:induction false} SpaceIgnored(a: Bytes, s: Bytes, b: Bytes)
    requires AllSpace(a) && AllSpace(b) && s != [] && !IsSpace(s[0]) && !IsSpace(s[|s| - 1])
    ensures PyInt(a + s + b) == PyInt(s)
  {
    StripTrims(a, s, b);
    StripTrims([], s, []);
    assert [] + s + [] == s;
    hide Strip;
  }

  lemma {:induction false} StripTrims(a: Bytes, s: Bytes, b: Bytes)
    requires AllSpace(a) && AllSpace(b) && s != [] && !IsSpace(s[0]) && !IsSpace(s[|s| - 1])
    ensures Strip(a + s + b) == s
    decreases |a| + |b|
  {
    var t := a + s + b;
    if a != [] {
      assert IsSpace(a[0]) && t[0] == a[0] && t[1..] == a[1..] + s + b;
      StripTrims(a[1..], s, b);
    } else if b != [] {
      var n := |b| - 1;
      assert t[0] == s[0] && IsSpace(b[n]) && t[|t| - 1] == b[n] && t[..|t| - 1] == a + s + b[..n];
      StripTrims(a, s, b[..n]);
    } else {
      assert t == s;
    }
  }

  /** A single underscore between digits is ignored; a sign may come first. */
  lemma {:induction false} UnderscoreIgnored(a: Bytes, b: Bytes)
    requires Unsigned(a).Some? && b != [] && AllDigits(b)
    ensures Unsigned(a + "_" + b) == Unsigned(a + b)
  {
    var n := |b| - 1;
    var s, t := a + "_" + b, a + b;
    assert s[|s| - 1] == t[|t| - 1] == b[n];
    assert t[..|t| - 1] == a + b[..n] && s[..|s| - 1] == a + "_" + b[..n];
    if n == 0 {
      assert t[..|t| - 1] == a && s[..|s| - 2] == a && s[|s| - 2] == '_';
      assert IsDigit(a[|a| - 1]) && t[|t| - 2] == a[|a| - 1];
    } else {
      UnderscoreIgnored(a, b[..n]);
      assert s[|s| - 2] == t[|t| - 2] == b[n - 1];
    }
  }

  lemma SignsRead(d: Bytes)
    requires d != [] && AllDigits(d)
    ensures PyInt(d) == PyInt("+" + d) == Some(ValueOf(d)) && PyInt("-" + d) == Some(-(ValueOf(d) as int))
  {
    DigitsRead(d);
    assert ("+" + d)[1..] == d && ("-" + d)[1..] == d;
    hide Unsigned, ValueOf;
  }

  lemma {:induction false} LineLocal(s: Bytes, x: Bytes)
    requires s != [] && s[LineLength(s) - 1] == '\n'
    ensures LineLength(s + x) == LineLength(s)
  {
    if s[0] != '\n' {
      assert (s + x)[1..] == s[1..] + x;
      assert s[1..] != [];
      LineLocal(s[1..], x);
    }
  }

  lemma {:induction false} ReadLineLocal(s: Bytes, x: Bytes)
    requires ReadLine(s).result.Ok?
    ensures ReadLine(s + x) == Reply(ReadLine(s).result, ReadLine(s).rest + x)
  {
    var n := LineLength(s);
    assert s[..n][n - 2..][1] == s[n - 1];
    LineLocal(s, x);
    assert (s + x)[..n] == s[..n] && (s + x)[n..] == s[n..] + x;
  }

  lemma {:induction false} BulkLocal(s: Bytes, length: int, x: Bytes)
    requires ReadBulk(s, length).result.Ok?
    ensures ReadBulk(s + x, length) == Reply(ReadBulk(s, length).result, ReadBulk(s, length).rest + x)
  {
    if length != -1 {
      var m := length + 2;
      assert |s[length..Min(m, |s|)]| == 2;
      assert (s + x)[length..m] == s[length..m] && (s + x)[..length] == s[..length] && (s + x)[m..] == s[m..] + x;
    }
  }

  /** What is read does not depend on what follows: bytes that arrive later never change it. */
  lemma {:induction false} ReadLocal(s: Bytes, x: Bytes)
    requires Read(s).result.Ok?
    ensures Read(s + x) == Reply(Read(s).result, Read(s).rest + x)
    decreases |s|, 0
  {
    var body := s[1..];
    assert (s + x)[0] == s[0] && (s + x)[1..] == body + x;
    hide ReadBulk, ReadLine, PyInt;
    ReadLineLocal(body, x);
    if s[0] == '$' {
      BulkLocal(ReadInt(body).rest, ReadInt(body).result.value, x);
    } else if s[0] == '*' && ReadInt(body).result.value != -1 {
      ManyLocal(ReadInt(body).rest, Max(ReadInt(body).result.value, 0), x);
    }
  }

  lemma {:induction false} ManyLocal(s: Bytes, n: nat, x: Bytes)
    requires ReadMany(s, n).result.Ok?
    ensures ReadMany(s + x, n) == Reply(ReadMany(s, n).result, ReadMany(s, n).rest + x)
    decreases |s|, n + 1
  {
    hide Read;
    if n > 0 {
      ManyUnfolds(s, n);
      hide ReadMany;
      var first := Read(s);
      ReadLocal(s, x);
      ManyLocal(first.rest, n - 1, x);
      ManyFolds(s + x, n, first.result.value, first.rest + x);
    }
  }

  lemma {:induction false} ManyUnfolds(s: Bytes, n: nat)
    requires n > 0 && ReadMany(s, n).result.Ok?
    ensures var first := Read(s); var others := ReadMany(first.rest, n - 1);
            first.result.Ok? && others.result.Ok?
            && ReadMany(s, n) == Reply(Ok([first.result.value] + others.result.value), others.rest)
  {
    hide Read;
  }

  lemma {:induction false} ManyFolds(s: Bytes, n: nat, v: Value, rest: Bytes)
    requires n > 0 && Read(s) == Reply(Ok(v), rest) && ReadMany(rest, n - 1).result.Ok?
    ensures ReadMany(s, n) == Reply(Ok([v] + ReadMany(rest, n - 1).result.value), ReadMany(rest, n - 1).rest)
  {
    hide Read;
  }

  /** No proper beginning of a value reads as a value: a connection that closes early is always noticed. */
  lemma TruncatedFails(w: Wire, k: nat)
    requires Sendable(w) && k < |Sent(w)|
    ensures Read(Sent(w)[..k]).result.Err?
  {
    var s, x := Sent(w)[..k], Sent(w)[k..];
    assert s + x == Sent(w) + [] && x != [];
    SentReads(w, []);
    hide Read, Sent, Meaning;
    if Read(s).result.Ok? {
      ReadLocal(s, x);
      assert false;
    }
  }
}
