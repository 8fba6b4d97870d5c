/** The NIP-GS signature file: signing preimage, envelope and armor. */
module Signature {
  import opened Wrappers
  import opened JsonValues
  import opened Text
  import opened JsonText
  import opened Conditions

  const DOMAIN := "nostr:git:v1:"
  const ARMOR_BEGIN := "-----BEGIN SIGNED MESSAGE-----"
  const ARMOR_END := "-----END SIGNED MESSAGE-----"
  const MAX_PAYLOAD: nat := 104_857_600
  const MAX_SIG_FILE: nat := 8192
  const MAX_JSON_DECODED: nat := 2048
  const MAX_BASE64_LINE: nat := 4096
  const MAX_AUTH_TAG: nat := 1024

  /** An owner attestation: owner key, conditions, owner signature. */
  datatype Oa = Oa(owner: string, conditions: string, sig: string)

  datatype Envelope = Envelope(pk: string, sig: string, t: nat, oa: Option<Oa>)

  predicate ValidOa(oa: Oa) { Hex(oa.owner, 64) && Validate(oa.conditions) && Hex(oa.sig, 128) }

  // ---- The signing preimage ----

  function Binding(oa: Oa): string { oa.owner + ":" + oa.conditions + ":" + oa.sig + ":" }

  /** The attestation, if there is one, and then the payload. */
  function Bound(oa: Option<Oa>, payload: string): string {
    (if oa.Some? then Binding(oa.value) else "") + payload
  }

  function Preimage(t: nat, oa: Option<Oa>, payload: string): string {
    DOMAIN + Decimal(t) + ":" + Bound(oa, payload)
  }

  lemma FirstField(a: string, x: string, b: string, y: string)
    requires ':' !in a && ':' !in b
    ensures a + ":" + x == b + ":" + y <==> a == b && x == y
  {
    var l, r := a + ":" + x, b + ":" + y;
    if l == r {
      assert l[|a|] == ':' && r[|b|] == ':';
      assert forall i | 0 <= i < |a| :: l[i] != ':';
      assert forall i | 0 <= i < |b| :: r[i] != ':';
      assert |a| == |b|;
      assert a == l[..|a|] && b == r[..|b|] && x == l[|a| + 1..] && y == r[|b| + 1..];
    }
  }

  lemma BindingFields(o: Oa, x: string, o': Oa, y: string)
    requires ValidOa(o) && ValidOa(o')
    ensures Binding(o) + x == Binding(o') + y <==> o == o' && x == y
  {
    ValidChars(o.conditions);
    ValidChars(o'.conditions);
    var l, r := o.conditions + ":" + (o.sig + ":" + x), o'.conditions + ":" + (o'.sig + ":" + y);
    assert Binding(o) + x == o.owner + ":" + l && Binding(o') + y == o'.owner + ":" + r;
    FirstField(o.owner, l, o'.owner, r);
    FirstField(o.conditions, o.sig + ":" + x, o'.conditions, o'.sig + ":" + y);
    FirstField(o.sig, x, o'.sig, y);
  }

  lemma TimeField(t: nat, x: string, t': nat, y: string)
    ensures DOMAIN + Decimal(t) + ":" + x == DOMAIN + Decimal(t') + ":" + y <==> t == t' && x == y
  {
    DecimalReads(t);
    DecimalReads(t');
    FirstField(Decimal(t), x, Decimal(t'), y);
    hide Decimal;
    var l, r := Decimal(t) + ":" + x, Decimal(t') + ":" + y;
    assert DOMAIN + Decimal(t) + ":" + x == DOMAIN + l && DOMAIN + Decimal(t') + ":" + y == DOMAIN + r;
    assert (DOMAIN + l)[|DOMAIN|..] == l && (DOMAIN + r)[|DOMAIN|..] == r;
  }

  /** The one way two different messages share a preimage: the payload of one spells the attestation of the other. */
  ghost predicate PayloadSpellsOa(oa: Option<Oa>, payload: string, oa': Option<Oa>, payload': string) {
    oa.Some? && oa'.None? && payload' == Binding(oa.value) + payload
  }

  /** The preimage determines time, attestation and payload, except where a payload spells an attestation. */
  lemma PreimageIff(t: nat, oa: Option<Oa>, payload: string, t': nat, oa': Option<Oa>, payload': string)
    requires (oa.Some? ==> ValidOa(oa.value)) && (oa'.Some? ==> ValidOa(oa'.value))
    ensures Preimage(t, oa, payload) == Preimage(t', oa', payload') <==>
            t == t' && ((oa == oa' && payload == payload')
                        || PayloadSpellsOa(oa, payload, oa', payload') || PayloadSpellsOa(oa', payload', oa, payload))
  {
    TimeField(t, Bound(oa, payload), t', Bound(oa', payload'));
    hide Decimal, Binding, ValidOa;
    if oa.Some? && oa'.Some? {
      BindingFields(oa.value, payload, oa'.value, payload');
    }
    assert "" + payload == payload && "" + payload' == payload';
  }

  /** A collision: one payload is signed under an attestation, the other spells it out and is signed without one. */
  lemma PreimageCollides(t: nat, payload: string)
    ensures var oa := Oa(seq(64, _ => 'a'), "", seq(128, _ => 'b'));
            ValidOa(oa) && Preimage(t, Some(oa), payload) == Preimage(t, None, Binding(oa) + payload)
  {
    var oa := Oa(seq(64, _ => 'a'), "", seq(128, _ => 'b'));
    PreimageIff(t, Some(oa), payload, t, None, Binding(oa) + payload);
    hide Preimage, Binding;
  }

  /** The payload begins as an attestation does. */
  predicate SpellsOwner(payload: string) { |payload| > 64 && Hex(payload[..64], 64) && payload[64] == ':' }

  /** Commits begin with `tree `, tags with `object `: neither starts with a hexadecimal digit. */
  predicate GitPayload(payload: string) { payload == "" || !IsHex(payload[0]) }

  /** For payloads that do not begin as an attestation does, such as git's, the preimage determines everything. */
  lemma PreimageUnique(t: nat, oa: Option<Oa>, payload: string, t': nat, oa': Option<Oa>, payload': string)
    requires (oa.Some? ==> ValidOa(oa.value)) && (oa'.Some? ==> ValidOa(oa'.value))
    requires !SpellsOwner(payload) && !SpellsOwner(payload')
    ensures Preimage(t, oa, payload) == Preimage(t', oa', payload') <==> t == t' && oa == oa' && payload == payload'
  {
    PreimageIff(t, oa, payload, t', oa', payload');
    if oa.Some? {
      BindingSpells(oa.value, payload);
    }
    if oa'.Some? {
      BindingSpells(oa'.value, payload');
    }
    hide Preimage, Binding, Hex;
  }

  lemma BindingSpells(oa: Oa, payload: string)
    requires ValidOa(oa)
    ensures SpellsOwner(Binding(oa) + payload)
  {
    assert (Binding(oa) + payload)[..64] == oa.owner;
  }

  lemma GitNeverSpells(payload: string)
    requires GitPayload(payload)
    ensures !SpellsOwner(payload)
  {
    assert |payload| > 64 ==> payload[..64][0] == payload[0];
  }

  /** The text that is hashed. */
  lemma PreimageText(t: nat, oa: Oa, payload: string)
    ensures Preimage(t, None, payload) == "nostr:git:v1:" + Decimal(t) + ":" + payload
    ensures Preimage(t, Some(oa), payload) ==
            "nostr:git:v1:" + Decimal(t) + ":" + oa.owner + ":" + oa.conditions + ":" + oa.sig + ":" + payload
  {
    hide Decimal;
    assert Bound(Some(oa), payload) == oa.owner + ":" + oa.conditions + ":" + oa.sig + ":" + payload;
    assert Bound(None, payload) == payload;
  }

  // ---- The envelope ----

  function OaText(oa: Oa): string {
    "[" + (Quoted(oa.owner) + ("," + (Quoted(oa.conditions) + ("," + (Quoted(oa.sig) + "]")))))
  }

  function Closing(oa: Option<Oa>): string {
    if oa.None? then "}" else "," + (Field("oa", OaText(oa.value)) + "}")
  }

  /** `{"v":1,"pk":"…","sig":"…","t":…}`, with `,"oa":["…","…","…"]` before the brace if there is an attestation. */
  function BuildEnvelope(e: Envelope): string {
    "{" + (Field("v", "1") + ("," + (Field("pk", Quoted(e.pk)) + ("," + (Field("sig", Quoted(e.sig))
    + ("," + (Field("t", Decimal(e.t)) + Closing(e.oa))))))))
  }

  /** Abstract BIP-340 and SHA-256: keys, signatures and digests are strings. */
  datatype Crypto = Crypto(
    publicKey: string -> string,
    sign: (string, string) -> string,
    verify: (string, string, string) -> bool,
    isKey: string -> bool,
    isXOnly: string -> bool,
    hash: string -> string)

  /** A signature made with a key verifies under its public key, and both have the hexadecimal form. */
  ghost predicate Correct(c: Crypto) {
    forall key, digest ::
      && Hex(c.publicKey(key), 64) && c.isKey(c.publicKey(key)) && c.isXOnly(c.publicKey(key))
      && Hex(c.sign(key, digest), 128) && c.verify(c.publicKey(key), digest, c.sign(key, digest))
  }

  function ReadOa(c: Crypto, j: Json, pk: string): Option<Oa> {
    if !j.Arr? || |j.items| != 3 || !j.items[0].Str? || !j.items[1].Str? || !j.items[2].Str? then None
    else
      var oa := Oa(j.items[0].s, j.items[1].s, j.items[2].s);
      if ValidOa(oa) && c.isKey(oa.owner) && c.isXOnly(oa.owner) && oa.owner != pk then Some(oa) else None
  }

  function ReadFields(c: Crypto, fields: map<string, Json>): Option<Envelope> {
    if !(fields.Keys <= {"v", "pk", "sig", "t", "oa"}) then None
    else if "v" !in fields || fields["v"] != Int(1) then None
    else if "pk" !in fields || !fields["pk"].Str? || !Hex(fields["pk"].s, 64) then None
    else if "sig" !in fields || !fields["sig"].Str? || !Hex(fields["sig"].s, 128) then None
    else if "t" !in fields || !fields["t"].Int? || !(0 <= fields["t"].n <= U32_MAX) then None
    else
      var e := Envelope(fields["pk"].s, fields["sig"].s, fields["t"].n, None);
      if "oa" !in fields then Some(e)
      else
        var oa := ReadOa(c, fields["oa"], e.pk);
        if oa.None? then None else Some(e.(oa := oa))
  }

  function ParseEnvelope(c: Crypto, json: string): Option<Envelope> {
    match FromStr(json)
    case Some(Obj(fields)) => ReadFields(c, fields)
    case _ => None
  }

  function OaDoc(oa: Oa): Doc { List([Text(oa.owner), Text(oa.conditions), Text(oa.sig)]) }

  function EnvelopeDoc(e: Envelope): Doc {
    Record([Member("v", Num(1)), Member("pk", Text(e.pk)), Member("sig", Text(e.sig)), Member("t", Num(e.t))]
           + if e.oa.Some? then [Member("oa", OaDoc(e.oa.value))] else [])
  }

  lemma HexPlain(s: string, n: nat)
    requires Hex(s, n)
    ensures Plain(s) && Ascii(s)
  {
  }

  lemma ConditionsPlain(s: string)
    requires Validate(s)
    ensures Plain(s) && Ascii(s)
  {
    ValidChars(s);
  }

  /** An envelope whose every field passes the checks made on reading. */
  predicate ValidEnvelope(c: Crypto, e: Envelope) {
    Hex(e.pk, 64) && Hex(e.sig, 128) && e.t <= U32_MAX &&
    (e.oa.Some? ==> ValidOa(e.oa.value) && c.isKey(e.oa.value.owner) && c.isXOnly(e.oa.value.owner) && e.oa.value.owner != e.pk)
  }

  lemma MembersPrint(m: Member, rest: seq<Member>)
    ensures PrintMembers([m] + rest) == Field(m.key, Print(m.doc)) + if rest == [] then "}" else "," + PrintMembers(rest)
    ensures MemberMeanings([m] + rest) == map[m.key := Meaning(m.doc)] + MemberMeanings(rest)
  {
    assert ([m] + rest)[1..] == rest;
  }

  lemma ItemsPrint(d: Doc, rest: seq<Doc>)
    ensures PrintItems([d] + rest) == Print(d) + if rest == [] then "]" else "," + PrintItems(rest)
    ensures ItemMeanings([d] + rest) == [Meaning(d)] + ItemMeanings(rest)
  {
    assert ([d] + rest)[1..] == rest;
  }

  lemma OaPrints(oa: Oa)
    ensures Print(OaDoc(oa)) == OaText(oa)
    ensures Meaning(OaDoc(oa)) == Arr([Str(oa.owner), Str(oa.conditions), Str(oa.sig)])
  {
    var x, y, z := Text(oa.owner), Text(oa.conditions), Text(oa.sig);
    ItemsPrint(z, []);
    ItemsPrint(y, [z]);
    ItemsPrint(x, [y, z]);
    assert [z] + [] == [z] && [y] + [z] == [y, z] && [x] + [y, z] == [x, y, z];
    assert [Meaning(z)] + [] == [Meaning(z)];
    hide PrintItems, ItemMeanings, Quoted;
  }

  function OaField(oa: Option<Oa>): map<string, Json> {
    if oa.None? then map[] else map["oa" := Arr([Str(oa.value.owner), Str(oa.value.conditions), Str(oa.value.sig)])]
  }

  /** The fields of the object an envelope spells. */
  function Fields(e: Envelope): map<string, Json> {
    map["v" := Int(1)] + (map["pk" := Str(e.pk)] + (map["sig" := Str(e.sig)] + (map["t" := Int(e.t)] + OaField(e.oa))))
  }

  function LastMember(oa: Option<Oa>): seq<Member> {
    if oa.Some? then [Member("oa", OaDoc(oa.value))] else []
  }

  lemma LastPrints(e: Envelope)
    ensures var t := [Member("t", Num(e.t))] + LastMember(e.oa);
            && PrintMembers(t) == Field("t", Decimal(e.t)) + Closing(e.oa)
            && MemberMeanings(t) == map["t" := Int(e.t)] + OaField(e.oa)
  {
    MembersPrint(Member("t", Num(e.t)), LastMember(e.oa));
    if e.oa.Some? {
      var last := Member("oa", OaDoc(e.oa.value));
      OaPrints(e.oa.value);
      MembersPrint(last, []);
      assert [last] == [last] + [];
      assert MemberMeanings([last]) == OaField(e.oa);
    }
    hide PrintMembers, MemberMeanings, OaDoc, OaText, Decimal, Quoted;
  }

  lemma EnvelopePrints(e: Envelope)
    ensures Print(EnvelopeDoc(e)) == BuildEnvelope(e)
  {
    var v, pk, sig, t := Member("v", Num(1)), Member("pk", Text(e.pk)), Member("sig", Text(e.sig)), Member("t", Num(e.t));
    var tail := [t] + LastMember(e.oa);
    LastPrints(e);
    MembersPrint(sig, tail);
    MembersPrint(pk, [sig] + tail);
    MembersPrint(v, [pk] + ([sig] + tail));
    assert EnvelopeDoc(e) == Record([v] + ([pk] + ([sig] + tail)));
    assert Decimal(1) == "1";
    hide PrintMembers, MemberMeanings, EnvelopeDoc, OaDoc, Decimal, Field, Closing;
  }

  lemma EnvelopeMeans(e: Envelope)
    ensures Meaning(EnvelopeDoc(e)) == Obj(Fields(e))
  {
    var v, pk, sig, t := Member("v", Num(1)), Member("pk", Text(e.pk)), Member("sig", Text(e.sig)), Member("t", Num(e.t));
    var tail := [t] + LastMember(e.oa);
    LastPrints(e);
    MembersPrint(sig, tail);
    MembersPrint(pk, [sig] + tail);
    MembersPrint(v, [pk] + ([sig] + tail));
    assert EnvelopeDoc(e) == Record([v] + ([pk] + ([sig] + tail)));
    hide PrintMembers, MemberMeanings, EnvelopeDoc, OaField, Decimal, Field, Closing, Print;
  }

  lemma AsciiPlus(a: string, b: string)
    requires Ascii(a) && Ascii(b)
    ensures Ascii(a + b)
  {
  }

  lemma QuotedAscii(s: string)
    requires Ascii(s)
    ensures Ascii(Quoted(s)) && |Quoted(s)| == |s| + 2
  {
  }

  lemma FieldAscii(key: string, value: string, rest: string)
    requires Ascii(key) && Ascii(value) && Ascii(rest)
    ensures Ascii(Field(key, value) + rest) && |Field(key, value) + rest| == |key| + |value| + |rest| + 3
    ensures Ascii("," + (Field(key, value) + rest))
  {
  }

  lemma OaAscii(oa: Oa)
    requires ValidOa(oa)
    ensures Ascii(OaText(oa)) && |OaText(oa)| == 202 + |oa.conditions|
    ensures PlainDoc(OaDoc(oa))
  {
    HexPlain(oa.owner, 64);
    ConditionsPlain(oa.conditions);
    HexPlain(oa.sig, 128);
    QuotedAscii(oa.owner);
    QuotedAscii(oa.conditions);
    QuotedAscii(oa.sig);
    assert PlainDoc(OaDoc(oa));
    assert Ascii("[") && Ascii(",") && Ascii("]");
    hide Ascii, Quoted, Hex, Plain, Validate;
    AsciiPlus(Quoted(oa.sig), "]");
    AsciiPlus(",", Quoted(oa.sig) + "]");
    AsciiPlus(Quoted(oa.conditions), "," + (Quoted(oa.sig) + "]"));
    AsciiPlus(",", Quoted(oa.conditions) + ("," + (Quoted(oa.sig) + "]")));
    AsciiPlus(Quoted(oa.owner), "," + (Quoted(oa.conditions) + ("," + (Quoted(oa.sig) + "]"))));
    AsciiPlus("[", Quoted(oa.owner) + ("," + (Quoted(oa.conditions) + ("," + (Quoted(oa.sig) + "]")))));
  }

  lemma ClosingAscii(oa: Option<Oa>)
    requires oa.Some? ==> ValidOa(oa.value)
    ensures Ascii(Closing(oa)) && |Closing(oa)| <= 209 + if oa.Some? then |oa.value.conditions| else 0
  {
    if oa.Some? {
      OaAscii(oa.value);
      FieldAscii("oa", OaText(oa.value), "}");
      hide OaText, ValidOa, Field;
    }
  }

  lemma EnvelopePlainDoc(c: Crypto, e: Envelope)
    requires ValidEnvelope(c, e)
    ensures PlainDoc(EnvelopeDoc(e))
  {
    HexPlain(e.pk, 64);
    HexPlain(e.sig, 128);
    if e.oa.Some? {
      OaAscii(e.oa.value);
    }
    hide OaText, OaDoc, Hex, ValidOa;
  }

  /** A valid envelope is plain ASCII, and as long as its conditions plus at most 439. */
  lemma EnvelopeAscii(c: Crypto, e: Envelope)
    requires ValidEnvelope(c, e)
    ensures Ascii(BuildEnvelope(e))
    ensures |BuildEnvelope(e)| <= 439 + if e.oa.Some? then |e.oa.value.conditions| else 0
  {
    HexPlain(e.pk, 64);
    HexPlain(e.sig, 128);
    QuotedAscii(e.pk);
    QuotedAscii(e.sig);
    DecimalReads(e.t);
    U32Length(e.t);
    ClosingAscii(e.oa);
    assert Ascii(Decimal(e.t)) && Ascii("v") && Ascii("pk") && Ascii("sig") && Ascii("t") && Ascii("1") && Ascii("{");
    hide Decimal, Closing, Ascii, Quoted, Field, ValidOa, Hex;
    var r1 := Field("t", Decimal(e.t)) + Closing(e.oa);
    FieldAscii("t", Decimal(e.t), Closing(e.oa));
    var r2 := Field("sig", Quoted(e.sig)) + ("," + r1);
    FieldAscii("sig", Quoted(e.sig), "," + r1);
    var r3 := Field("pk", Quoted(e.pk)) + ("," + r2);
    FieldAscii("pk", Quoted(e.pk), "," + r2);
    FieldAscii("v", "1", "," + r3);
    AsciiPlus("{", Field("v", "1") + ("," + r3));
  }

  lemma FieldsRead(c: Crypto, e: Envelope)
    requires ValidEnvelope(c, e)
    ensures ReadFields(c, Fields(e)) == Some(e)
  {
    hide Hex, ValidOa;
    var fields := Fields(e);
    assert fields.Keys <= {"v", "pk", "sig", "t", "oa"};
    assert e.oa.None? ==> "oa" !in fields;
    assert e.oa.Some? ==> e == Envelope(e.pk, e.sig, e.t, None).(oa := Some(e.oa.value));
  }

  /** Every valid envelope is read back from its text, which is compact. */
  lemma EnvelopeRoundTrip(c: Crypto, e: Envelope)
    requires ValidEnvelope(c, e)
    ensures ParseEnvelope(c, BuildEnvelope(e)) == Some(e) && !LooseSpace(BuildEnvelope(e), false, false)
  {
    EnvelopePrints(e);
    EnvelopeMeans(e);
    EnvelopePlainDoc(c, e);
    PrintedReads(EnvelopeDoc(e));
    PrintedCompact(EnvelopeDoc(e));
    FieldsRead(c, e);
    hide ReadFields, Fields, FromStr, LooseSpace, Meaning, Print;
  }

  // ---- Armor ----

  function ArmorText(line: string): string { ARMOR_BEGIN + "\n" + line + "\n" + ARMOR_END + "\n" }

  predicate TrailingSpace(line: string) {
    line != "" && (line[|line| - 1] == ' ' || line[|line| - 1] == '\t' || line[|line| - 1] == '\r')
  }

  function ParseArmor(content: string): Option<string> {
    if content == "" || content[|content| - 1] != '\n' then None
    else
      var lines := Split(content[..|content| - 1], '\n');
      if |lines| != 3 || lines[0] != ARMOR_BEGIN || lines[2] != ARMOR_END then None
      else if exists i | 0 <= i < 3 :: TrailingSpace(lines[i]) then None
      else Some(lines[1])
  }

  lemma JoinThree(a: string, b: string, c: string, sep: char)
    ensures Join([a, b, c], sep) == a + [sep] + b + [sep] + c
  {
    assert [a, b, c][1..] == [b, c] && [b, c][1..] == [c];
    assert Join([b, c], sep) == b + [sep] + c;
  }

  lemma FrameLines()
    ensures !TrailingSpace(ARMOR_BEGIN) && !TrailingSpace(ARMOR_END) && '\n' !in ARMOR_BEGIN && '\n' !in ARMOR_END
  {
    assert ARMOR_BEGIN[29] == '-' && ARMOR_END[27] == '-';
  }

  lemma {:induction false} ArmorTextLines(line: string)
    ensures ArmorText(line) == Join([ARMOR_BEGIN, line, ARMOR_END], '\n') + "\n"
  {
    JoinThree(ARMOR_BEGIN, line, ARMOR_END, '\n');
    hide Join, ARMOR_BEGIN, ARMOR_END;
  }

  lemma {:induction false} ArmorReads(line: string)
    requires '\n' !in line && !TrailingSpace(line)
    ensures ParseArmor(ArmorText(line)) == Some(line)
  {
    var lines := [ARMOR_BEGIN, line, ARMOR_END];
    FrameLines();
    ArmorTextLines(line);
    hide Join, Split, ArmorText, ARMOR_BEGIN, ARMOR_END, TrailingSpace;
    SplitJoin(lines, '\n');
    var content := ArmorText(line);
    assert content[..|content| - 1] == Join(lines, '\n');
    assert forall i | 0 <= i < 3 :: !TrailingSpace(lines[i]);
  }

  lemma {:induction false} ArmorPrints(content: string)
    requires ParseArmor(content).Some?
    ensures var line := ParseArmor(content).value;
            content == ArmorText(line) && '\n' !in line && !TrailingSpace(line)
  {
    hide Join, Split, ArmorText, ARMOR_BEGIN, ARMOR_END, TrailingSpace;
    var line, inner := ParseArmor(content).value, content[..|content| - 1];
    var lines := Split(inner, '\n');
    assert lines == [ARMOR_BEGIN, line, ARMOR_END] && !TrailingSpace(lines[1]);
    JoinSplit(inner, '\n');
    ArmorTextLines(line);
    assert '\n' !in lines[1];
    assert content == inner + "\n";
  }

  /** Armor is read back exactly: one line, not broken and not ending in white space, in exactly one framing. */
  lemma ParseArmorIff(content: string, line: string)
    ensures ParseArmor(content) == Some(line) <==> content == ArmorText(line) && '\n' !in line && !TrailingSpace(line)
    ensures TrailingSpace(line) <==> line != "" && line[|line| - 1] in {' ', '\t', '\r'}
  {
    hide ParseArmor, ArmorText;
    assert TrailingSpace(line) <==> line != "" && line[|line| - 1] in {' ', '\t', '\r'};
    hide TrailingSpace;
    if ParseArmor(content).Some? {
      ArmorPrints(content);
    }
    if '\n' !in line && !TrailingSpace(line) {
      ArmorReads(line);
    }
  }

  /** The frame of a signature file. */
  lemma ArmorForm(line: string)
    ensures ArmorText(line) == "-----BEGIN SIGNED MESSAGE-----\n" + line + "\n-----END SIGNED MESSAGE-----\n"
  {
    assert ARMOR_BEGIN + "\n" == "-----BEGIN SIGNED MESSAGE-----\n";
    assert "\n" + ARMOR_END + "\n" == "\n-----END SIGNED MESSAGE-----\n";
    hide ARMOR_BEGIN, ARMOR_END;
  }

  /** The text of an envelope without an attestation, and what one adds before the closing brace. */
  lemma EnvelopeText(pk: string, sig: string, t: nat, oa: Oa)
    ensures BuildEnvelope(Envelope(pk, sig, t, None)) ==
            "{\"v\":1,\"pk\":\"" + (pk + ("\",\"sig\":\"" + (sig + ("\",\"t\":" + (Decimal(t) + "}")))))
    ensures BuildEnvelope(Envelope(pk, sig, t, Some(oa))) ==
            "{\"v\":1,\"pk\":\"" + (pk + ("\",\"sig\":\"" + (sig + ("\",\"t\":" + (Decimal(t)
            + (",\"oa\":[\"" + (oa.owner + ("\",\"" + (oa.conditions + ("\",\"" + (oa.sig + "\"]}")))))))))))
  {
    HeadText(pk, sig, t, Closing(None));
    HeadText(pk, sig, t, Closing(Some(oa)));
    ClosingText(oa);
    hide Field, Quoted, OaText, Closing;
  }

  lemma {:induction false} QuotedThen(s: string, rest: string)
    ensures Quoted(s) + rest == "\"" + (s + ("\"" + rest))
  {
  }

  lemma {:induction false} FieldThen(key: string, value: string, rest: string)
    ensures Field(key, value) + rest == Quoted(key) + (":" + (value + rest))
  {
    hide Quoted;
  }

  /** A quoted value between two literal pieces. */
  lemma {:induction false} QuotedField(key: string, value: string, rest: string)
    ensures Field(key, Quoted(value)) + rest == (Quoted(key) + ":\"") + (value + ("\"" + rest))
  {
    FieldThen(key, Quoted(value), rest);
    QuotedThen(value, rest);
    hide Field, Quoted;
  }

  lemma {:induction false} HeadText(pk: string, sig: string, t: nat, end: string)
    ensures "{" + (Field("v", "1") + ("," + (Field("pk", Quoted(pk)) + ("," + (Field("sig", Quoted(sig))
            + ("," + (Field("t", Decimal(t)) + end))))))) ==
            "{\"v\":1,\"pk\":\"" + (pk + ("\",\"sig\":\"" + (sig + ("\",\"t\":" + (Decimal(t) + end)))))
  {
    var d := Decimal(t);
    hide Decimal;
    FieldThen("t", d, end);
    QuotedField("sig", sig, "," + (Field("t", d) + end));
    var tail := "," + (Field("sig", Quoted(sig)) + ("," + (Field("t", d) + end)));
    QuotedField("pk", pk, tail);
    assert Quoted("t") == "\"t\"" && Quoted("sig") == "\"sig\"" && Quoted("pk") == "\"pk\"";
    assert "{" + (Field("v", "1") + ",") == "{\"v\":1,";
    hide Quoted, Field;
    assert "\"" + ("," + (("\"t\"" + (":" + (d + end))))) == "\",\"t\":" + (d + end);
    var last := sig + ("\",\"t\":" + (d + end));
    assert "\"" + ("," + (("\"sig\"" + ":\"") + last)) == "\",\"sig\":\"" + last;
    var all := pk + ("\",\"sig\":\"" + last);
    assert "{\"v\":1," + (("\"pk\"" + ":\"") + all) == "{\"v\":1,\"pk\":\"" + all;
  }

  lemma {:induction false} ClosingText(oa: Oa)
    ensures Closing(Some(oa)) ==
            ",\"oa\":[\"" + (oa.owner + ("\",\"" + (oa.conditions + ("\",\"" + (oa.sig + "\"]}")))))
    ensures Closing(None) == "}"
  {
    var c := "," + (Quoted(oa.sig) + "]}");
    var b := "," + (Quoted(oa.conditions) + c);
    assert OaText(oa) + "}" == "[" + (Quoted(oa.owner) + b) by {
      hide Quoted;
    }
    FieldThen("oa", OaText(oa), "}");
    QuotedThen(oa.owner, b);
    QuotedThen(oa.conditions, c);
    QuotedThen(oa.sig, "]}");
    assert Quoted("oa") == "\"oa\"";
    hide Quoted, Field, OaText;
    assert "\"" + c == "\",\"" + (oa.sig + "\"]}");
    assert "\"" + b == "\",\"" + (oa.conditions + ("\"" + c));
    var x := oa.owner + ("\"" + b);
    assert "," + ("\"oa\"" + (":" + ("[" + ("\"" + x)))) == ",\"oa\":[\"" + x;
  }
}
