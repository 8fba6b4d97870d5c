/** The decisions of `do_sign` and `do_verify`, and why what one writes the other accepts. */
module Signing {
  import opened Wrappers
  import opened JsonValues
  import opened Text
  import opened JsonText
  import opened Conditions
  import opened Signature
  import Base64

  datatype SignError =
    | PayloadTooLarge
    | TimeOutOfRange
    | TagTooLong
    | TagMalformed
    | TagConditions
    | TagOwner
    | TagSignature
    | OwnerNotAKey
    | SelfAttestation
    | OwnerSignatureInvalid
    | ConditionsViolated

  /** `load_auth_tag`, given the configured text if there is one. */
  function LoadAuthTag(text: Option<string>): Result<Option<Oa>, SignError> {
    if text.None? then Ok(None)
    else if |text.value| > MAX_AUTH_TAG then Err(TagTooLong)
    else
      match FromStr(text.value)
      case Some(Arr(items)) =>
        if |items| != 4 || items[0] != Str("auth") || !items[1].Str? || !items[2].Str? || !items[3].Str? then Err(TagMalformed)
        else
          var oa := Oa(items[1].s, items[2].s, items[3].s);
          if !Validate(oa.conditions) then Err(TagConditions)
          else if !Hex(oa.owner, 64) then Err(TagOwner)
          else if !Hex(oa.sig, 128) then Err(TagSignature)
          else Ok(Some(oa))
      case _ => Err(TagMalformed)
  }

  /** 64 bytes in hexadecimal, of either case. */
  predicate SignatureShape(s: string) { |s| == 128 && forall i | 0 <= i < |s| :: IsAnyHex(s[i]) }

  /** `verify_oa`: the owner signed this agent key with these conditions. */
  predicate VerifyOa(c: Crypto, agent: string, oa: Oa) {
    c.isKey(oa.owner) && SignatureShape(oa.sig) && c.isXOnly(oa.owner)
    && c.verify(oa.owner, c.hash("nostr:agent-auth:" + agent + ":" + oa.conditions), oa.sig)
  }

  function Digest(c: Crypto, t: nat, oa: Option<Oa>, payload: string): string { c.hash(Preimage(t, oa, payload)) }

  /** The file that carries an envelope. */
  function SignatureFile(e: Envelope): string
    requires Base64.Bytes(BuildEnvelope(e))
  {
    ArmorText(Base64.Encode(BuildEnvelope(e)))
  }

  /** What `do_sign` puts in the envelope, once every check has passed. */
  function SignedEnvelope(c: Crypto, key: string, payload: string, t: nat, tag: Option<string>): Result<Envelope, SignError> {
    if |payload| > MAX_PAYLOAD then Err(PayloadTooLarge)
    else if t > U32_MAX then Err(TimeOutOfRange)
    else
      match LoadAuthTag(tag)
      case Err(e) => Err(e)
      case Ok(oa) =>
        var pk := c.publicKey(key);
        if oa.Some? && !c.isKey(oa.value.owner) then Err(OwnerNotAKey)
        else if oa.Some? && oa.value.owner == pk then Err(SelfAttestation)
        else if oa.Some? && !VerifyOa(c, pk, oa.value) then Err(OwnerSignatureInvalid)
        else if oa.Some? && !Enforce(oa.value.conditions, t) then Err(ConditionsViolated)
        else Ok(Envelope(pk, c.sign(key, Digest(c, t, oa, payload)), t, oa))
  }

  // ---- Verifying ----

  datatype Stage =
    | FileTooLarge
    | FileNotUtf8
    | BadArmor
    | LineTooLong
    | BadBase64
    | JsonTooLarge
    | JsonNotUtf8
    | NotCompact
    | BadEnvelope
    | NotCanonical
    | BadKey
    | PayloadOverLimit
    | BadSignatureBytes
    | OwnerKeyInvalid

  datatype OaStatus = NoAttestation | Attested | AttestationInvalid | AttestationExpired

  datatype Verdict = Rejected(stage: Stage) | BadSignature(pk: string) | Good(envelope: Envelope, status: OaStatus)

  /** The structural stages: from the bytes of the file to a canonical envelope. */
  function ReadSignature(c: Crypto, file: string): Result<Envelope, Stage> {
    if |file| > MAX_SIG_FILE then Err(FileTooLarge)
    else if !Utf8(file) then Err(FileNotUtf8)
    else
      match ParseArmor(file)
      case None => Err(BadArmor)
      case Some(line) =>
        if |line| > MAX_BASE64_LINE then Err(LineTooLong)
        else
          match Base64.Decode(line)
          case None => Err(BadBase64)
          case Some(json) =>
            if |json| > MAX_JSON_DECODED then Err(JsonTooLarge)
            else if !Utf8(json) then Err(JsonNotUtf8)
            else if LooseSpace(json, false, false) then Err(NotCompact)
            else
              match ParseEnvelope(c, json)
              case None => Err(BadEnvelope)
              case Some(e) => if BuildEnvelope(e) != json then Err(NotCanonical) else Ok(e)
  }

  function AttestationStatus(c: Crypto, e: Envelope): OaStatus {
    if e.oa.None? then NoAttestation
    else if !VerifyOa(c, e.pk, e.oa.value) then AttestationInvalid
    else if !Enforce(e.oa.value.conditions, e.t) then AttestationExpired
    else Attested
  }

  function DoVerify(c: Crypto, file: string, payload: string): Verdict {
    match ReadSignature(c, file)
    case Err(stage) => Rejected(stage)
    case Ok(e) =>
      if !c.isKey(e.pk) then Rejected(BadKey)
      else if |payload| > MAX_PAYLOAD then Rejected(PayloadOverLimit)
      else if !SignatureShape(e.sig) then Rejected(BadSignatureBytes)
      else if !c.isXOnly(e.pk) then Rejected(BadKey)
      else if !c.verify(e.pk, Digest(c, e.t, e.oa, payload), e.sig) then BadSignature(e.pk)
      else if e.oa.Some? && !(c.isKey(e.oa.value.owner) && c.isXOnly(e.oa.value.owner)) then Rejected(OwnerKeyInvalid)
      else Good(e, AttestationStatus(c, e))
  }

  // ---- The accepted files ----

  lemma ReadFieldsValid(c: Crypto, fields: map<string, Json>)
    requires ReadFields(c, fields).Some?
    ensures ValidEnvelope(c, ReadFields(c, fields).value)
  {
    hide Hex, ValidOa;
  }

  lemma FieldsKept(c: Crypto, fields: map<string, Json>)
    requires ReadFields(c, fields).Some?
    ensures fields == Fields(ReadFields(c, fields).value)
  {
    hide Hex, ValidOa;
    var e := ReadFields(c, fields).value;
    if e.oa.Some? {
      assert fields["oa"].items == [Str(e.oa.value.owner), Str(e.oa.value.conditions), Str(e.oa.value.sig)];
    }
    hide ReadOa;
    assert fields.Keys == Fields(e).Keys;
  }

  /** The fields of a valid envelope, and nothing else, are what the parser takes: it is the exact inverse of writing them down. */
  lemma EnvelopeParsedIff(c: Crypto, fields: map<string, Json>, e: Envelope)
    ensures ReadFields(c, fields) == Some(e) <==> ValidEnvelope(c, e) && fields == Fields(e)
  {
    hide ReadFields, Fields, ValidEnvelope;
    if ReadFields(c, fields) == Some(e) {
      ReadFieldsValid(c, fields);
      FieldsKept(c, fields);
    }
    if ValidEnvelope(c, e) {
      FieldsRead(c, e);
    }
  }

  lemma ParsedIsValid(c: Crypto, json: string)
    requires ParseEnvelope(c, json).Some?
    ensures ValidEnvelope(c, ParseEnvelope(c, json).value)
  {
    hide ReadFields, FromStr, ValidEnvelope;
    match FromStr(json)
    case Some(Obj(fields)) => ReadFieldsValid(c, fields);
    case _ =>
  }

  /** The text of a valid envelope survives the armor, and its file is as small as its JSON allows. */
  lemma FileShape(c: Crypto, e: Envelope)
    requires ValidEnvelope(c, e)
    ensures Base64.Bytes(BuildEnvelope(e)) && Utf8(BuildEnvelope(e)) && Utf8(SignatureFile(e))
    ensures var line := Base64.Encode(BuildEnvelope(e));
            && |line| == (|BuildEnvelope(e)| + 2) / 3 * 4 && |SignatureFile(e)| == |line| + 61
            && '\n' !in line && !TrailingSpace(line)
  {
    EnvelopeAscii(c, e);
    var json := BuildEnvelope(e);
    hide BuildEnvelope, ValidEnvelope;
    AsciiIsUtf8(json);
    Base64.EncodeShape(json);
    var line := Base64.Encode(json);
    hide Base64.Encode;
    assert Ascii(line);
    ArmorAscii(line);
    AsciiIsUtf8(ArmorText(line));
    hide Utf8;
  }

  lemma ArmorAscii(line: string)
    requires Ascii(line)
    ensures Ascii(ArmorText(line)) && |ArmorText(line)| == |line| + 61
  {
    assert |ARMOR_BEGIN| == 30 && |ARMOR_END| == 28 && Ascii(ARMOR_BEGIN) && Ascii(ARMOR_END);
  }

  /** The structural stages accept exactly the files of valid envelopes whose JSON fits the cap, each in one spelling. */
  lemma ReadSignatureIff(c: Crypto, file: string, e: Envelope)
    ensures ReadSignature(c, file) == Ok(e) <==>
            ValidEnvelope(c, e) && |BuildEnvelope(e)| <= 2048
            && Base64.Bytes(BuildEnvelope(e)) && file == SignatureFile(e)
  {
    hide Utf8, LooseSpace, ParseEnvelope, BuildEnvelope, Base64.Decode, Base64.Encode, ParseArmor, ArmorText, ValidEnvelope;
    if ReadSignature(c, file) == Ok(e) {
      var line := ParseArmor(file).value;
      ParseArmorIff(file, line);
      Base64.EncodeDecode(line);
      ParsedIsValid(c, Base64.Decode(line).value);
    }
    if ValidEnvelope(c, e) && |BuildEnvelope(e)| <= MAX_JSON_DECODED && Base64.Bytes(BuildEnvelope(e)) && file == SignatureFile(e) {
      var line := Base64.Encode(BuildEnvelope(e));
      FileShape(c, e);
      ParseArmorIff(file, line);
      Base64.DecodeEncode(BuildEnvelope(e));
      EnvelopeRoundTrip(c, e);
    }
  }

  /** Which stage refuses a file, in the order the stages are passed. */
  lemma StagesRefuse(c: Crypto, file: string)
    ensures var r := ReadSignature(c, file); var line := ParseArmor(file);
            && (r == Err(FileTooLarge) <==> |file| > 8192)
            && (r == Err(FileNotUtf8) <==> |file| <= 8192 && !Utf8(file))
            && (|file| <= 8192 && Utf8(file) ==>
                  && (r == Err(BadArmor) <==> line.None?)
                  && (line.Some? ==>
                        && (r == Err(LineTooLong) <==> |line.value| > 4096)
                        && (r == Err(BadBase64) <==> |line.value| <= 4096 && Base64.Decode(line.value).None?)))
  {
    hide Utf8, ParseArmor, Base64.Decode, LooseSpace, ParseEnvelope, BuildEnvelope;
  }

  lemma DecodedRefused(c: Crypto, file: string, line: string, json: string)
    requires |file| <= 8192 && Utf8(file) && ParseArmor(file) == Some(line) && |line| <= 4096
    requires Base64.Decode(line) == Some(json)
    ensures var r := ReadSignature(c, file); var e := ParseEnvelope(c, json);
            && (r == Err(JsonTooLarge) <==> |json| > 2048)
            && (|json| <= 2048 ==> (r == Err(JsonNotUtf8) <==> !Utf8(json)))
            && (|json| <= 2048 && Utf8(json) ==>
                  && (r == Err(NotCompact) <==> exists i: nat :: LooseAt(json, i))
                  && (!(exists i: nat :: LooseAt(json, i)) ==>
                        && (r == Err(BadEnvelope) <==> e.None?)
                        && (r == Err(NotCanonical) <==> e.Some? && BuildEnvelope(e.value) != json)))
  {
    LooseSpaceIff(json);
    hide Utf8, ParseArmor, Base64.Decode, LooseSpace, LooseAt, ParseEnvelope, BuildEnvelope;
  }

  /** Accepted signature text is unique: two files with the same content are the same file. */
  lemma AcceptedTextUnique(c: Crypto, file: string, file': string)
    requires ReadSignature(c, file).Ok? && ReadSignature(c, file) == ReadSignature(c, file')
    ensures file == file'
  {
    var e := ReadSignature(c, file).value;
    ReadSignatureIff(c, file, e);
    ReadSignatureIff(c, file', e);
    hide ReadSignature;
  }

  // ---- Signing, then verifying ----

  lemma TagBounds(tag: Option<string>)
    requires LoadAuthTag(tag).Ok? && LoadAuthTag(tag).value.Some?
    ensures ValidOa(LoadAuthTag(tag).value.value) && |LoadAuthTag(tag).value.value.conditions| <= MAX_AUTH_TAG
  {
    hide FromStr, Validate, Hex;
  }

  lemma SignedIsValid(c: Crypto, key: string, payload: string, t: nat, tag: Option<string>)
    requires Correct(c) && SignedEnvelope(c, key, payload, t, tag).Ok?
    ensures var e := SignedEnvelope(c, key, payload, t, tag).value;
            ValidEnvelope(c, e) && |BuildEnvelope(e)| <= 439 + MAX_AUTH_TAG
  {
    var e := SignedEnvelope(c, key, payload, t, tag).value;
    if e.oa.Some? {
      TagBounds(tag);
    }
    hide LoadAuthTag, Hex, ValidOa, BuildEnvelope, Enforce, Preimage;
    assert Hex(c.publicKey(key), 64) && Hex(c.sign(key, Digest(c, t, e.oa, payload)), 128);
    EnvelopeAscii(c, e);
  }

  /** The checks made after the file is read. */
  lemma SignedPasses(c: Crypto, key: string, payload: string, t: nat, tag: Option<string>)
    requires Correct(c) && SignedEnvelope(c, key, payload, t, tag).Ok?
    ensures var e := SignedEnvelope(c, key, payload, t, tag).value;
            && e.pk == c.publicKey(key) && e.t == t && LoadAuthTag(tag) == Ok(e.oa)
            && c.isKey(e.pk) && c.isXOnly(e.pk) && |payload| <= MAX_PAYLOAD && SignatureShape(e.sig)
            && c.verify(e.pk, Digest(c, e.t, e.oa, payload), e.sig)
            && (e.oa.Some? ==> AttestationStatus(c, e) == Attested)
  {
    var e := SignedEnvelope(c, key, payload, t, tag).value;
    hide LoadAuthTag, Digest, Enforce, VerifyOa;
    var digest := Digest(c, t, e.oa, payload);
    assert Hex(c.sign(key, digest), 128) && c.verify(c.publicKey(key), digest, c.sign(key, digest));
  }

  /**
   * Whatever signing accepts, verifying accepts: the file passes every stage, carries the signer's key, the time and
   * the attestation, and an attestation is reported as valid.
   */
  lemma SignedVerifies(c: Crypto, key: string, payload: string, t: nat, tag: Option<string>)
    requires Correct(c) && SignedEnvelope(c, key, payload, t, tag).Ok?
    ensures var e := SignedEnvelope(c, key, payload, t, tag).value;
            && e.pk == c.publicKey(key) && e.t == t && LoadAuthTag(tag) == Ok(e.oa)
            && Base64.Bytes(BuildEnvelope(e))
            && DoVerify(c, SignatureFile(e), payload) == Good(e, if e.oa.Some? then Attested else NoAttestation)
  {
    hide ReadSignature, LoadAuthTag, BuildEnvelope, SignatureFile, Digest, SignatureShape, Enforce, VerifyOa, Correct, SignedEnvelope;
    var e := SignedEnvelope(c, key, payload, t, tag).value;
    SignedIsValid(c, key, payload, t, tag);
    SignedPasses(c, key, payload, t, tag);
    FileShape(c, e);
    ReadSignatureIff(c, SignatureFile(e), e);
  }

  /** Nothing is reported good unless the signature over exactly this time, attestation and payload verifies. */
  lemma GoodMeansSigned(c: Crypto, file: string, payload: string, e: Envelope, status: OaStatus)
    requires DoVerify(c, file, payload) == Good(e, status)
    ensures ValidEnvelope(c, e) && c.verify(e.pk, Digest(c, e.t, e.oa, payload), e.sig)
    ensures status == NoAttestation <==> e.oa.None?
    ensures status == Attested <==> e.oa.Some? && VerifyOa(c, e.pk, e.oa.value) && Enforce(e.oa.value.conditions, e.t)
  {
    ReadSignatureIff(c, file, e);
    hide ReadSignature, ValidEnvelope, BuildEnvelope, Enforce;
  }

  // ---- Attestations ----

  /** What an owner signs to attest an agent. */
  lemma GenuineAttestation(c: Crypto, owner: string, agent: string, conditions: string)
    requires Correct(c)
    ensures var digest := c.hash("nostr:agent-auth:" + agent + ":" + conditions);
            VerifyOa(c, agent, Oa(c.publicKey(owner), conditions, c.sign(owner, digest)))
  {
    var digest := c.hash("nostr:agent-auth:" + agent + ":" + conditions);
    assert Hex(c.sign(owner, digest), 128) && c.verify(c.publicKey(owner), digest, c.sign(owner, digest));
  }

  /** A signature verifies under at most one digest, and no two texts have the same digest. */
  ghost predicate Unforgeable(c: Crypto) {
    (forall key, digest, digest', sig | c.verify(key, digest, sig) && c.verify(key, digest', sig) :: digest == digest') &&
    (forall a, b | c.hash(a) == c.hash(b) :: a == b)
  }

  /** With such cryptography, one attestation attests one agent only. */
  lemma AttestsOneAgent(c: Crypto, oa: Oa, agent: string, agent': string)
    requires Unforgeable(c) && VerifyOa(c, agent, oa) && VerifyOa(c, agent', oa)
    ensures agent == agent'
  {
    var a, b := "nostr:agent-auth:" + agent + ":" + oa.conditions, "nostr:agent-auth:" + agent' + ":" + oa.conditions;
    assert c.hash(a) == c.hash(b);
    var n := |"nostr:agent-auth:"|;
    assert |agent| == |agent'|;
    assert a[n..n + |agent|] == agent && b[n..n + |agent|] == agent';
  }

  /** The owner has signed this agent's key with these conditions, and they hold at this time. */
  ghost predicate Attests(c: Crypto, agent: string, t: nat, oa: Oa) {
    && c.isKey(oa.owner) && c.isXOnly(oa.owner) && SignatureShape(oa.sig)
    && c.verify(oa.owner, c.hash("nostr:agent-auth:" + agent + ":" + oa.conditions), oa.sig)
    && Enforce(oa.conditions, t)
  }

  /** Exactly which auth tags are taken: at most 1024 bytes, four strings of which the first is `auth`, each well formed. */
  lemma TagAcceptedIff(text: string, oa: Oa)
    ensures LoadAuthTag(Some(text)) == Ok(Some(oa)) <==>
            && |text| <= 1024 && FromStr(text) == Some(Arr([Str("auth"), Str(oa.owner), Str(oa.conditions), Str(oa.sig)]))
            && Hex(oa.owner, 64) && Validate(oa.conditions) && Hex(oa.sig, 128)
    ensures LoadAuthTag(None) == Ok(None) && LoadAuthTag(Some(text)) != Ok(None)
  {
    hide FromStr, Hex, Validate;
    if LoadAuthTag(Some(text)) == Ok(Some(oa)) {
      var items := FromStr(text).value.items;
      assert items == [Str("auth"), Str(oa.owner), Str(oa.conditions), Str(oa.sig)];
    }
  }

  /** Exactly what signing accepts. */
  lemma SignsIff(c: Crypto, key: string, payload: string, t: nat, tag: Option<string>)
    ensures SignedEnvelope(c, key, payload, t, tag).Ok? <==>
            && |payload| <= 104_857_600 && t <= 4_294_967_295 && LoadAuthTag(tag).Ok?
            && (LoadAuthTag(tag).value.Some? ==>
                  var oa := LoadAuthTag(tag).value.value;
                  oa.owner != c.publicKey(key) && Attests(c, c.publicKey(key), t, oa))
    ensures var r := SignedEnvelope(c, key, payload, t, tag);
            r.Ok? ==>
              var oa := LoadAuthTag(tag).value;
              r.value == Envelope(c.publicKey(key), c.sign(key, c.hash(Preimage(t, oa, payload))), t, oa)
  {
    hide LoadAuthTag, Enforce, SignatureShape, Preimage;
  }

  /** Exactly when a signature is reported good, bad or broken. */
  lemma VerdictIff(c: Crypto, file: string, payload: string, e: Envelope)
    requires ReadSignature(c, file) == Ok(e)
    ensures var r := DoVerify(c, file, payload);
            var usable := c.isKey(e.pk) && c.isXOnly(e.pk) && |payload| <= 104_857_600;
            var signed := c.verify(e.pk, c.hash(Preimage(e.t, e.oa, payload)), e.sig);
            && (r.Rejected? <==> !usable)
            && (r == BadSignature(e.pk) <==> usable && !signed)
            && (r.Good? <==> usable && signed)
            && (r.Good? ==>
                  && r.envelope == e
                  && (r.status == NoAttestation <==> e.oa.None?)
                  && (r.status == Attested <==> e.oa.Some? && Attests(c, e.pk, e.t, e.oa.value))
                  && (r.status == AttestationExpired ==> !Enforce(e.oa.value.conditions, e.t))
                  && (r.status == AttestationInvalid <==>
                        e.oa.Some? && !c.verify(e.oa.value.owner, c.hash("nostr:agent-auth:" + e.pk + ":" + e.oa.value.conditions), e.oa.value.sig)))
  {
    ReadSignatureIff(c, file, e);
    assert SignatureShape(e.sig) by { assert Hex(e.sig, 128); }
    if e.oa.Some? {
      assert SignatureShape(e.oa.value.sig) by { assert Hex(e.oa.value.sig, 128); }
    }
    hide ReadSignature, BuildEnvelope, SignatureFile, Enforce, SignatureShape, Preimage, Hex, Validate;
  }

  /** A file whose structure is refused is rejected, whatever it is said to sign. */
  lemma RefusedStays(c: Crypto, file: string, payload: string)
    ensures ReadSignature(c, file).Err? ==> DoVerify(c, file, payload) == Rejected(ReadSignature(c, file).error)
  {
    hide ReadSignature;
  }
}
