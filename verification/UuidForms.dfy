/** Channel ids and their spellings (RFC 9562, section 4). */
module UuidForms {
  import opened Wrappers
  import opened Text

  /** The 128 bits, as 32 lower-case hexadecimal digits. */
  type Digits = s: string | Hex(s, 32) witness seq(32, _ => '0')

  datatype Uuid = Uuid(digits: Digits)

  /** The textual form of channel ids: the canonical printer and the lenient parser. */
  datatype UuidText = UuidText(show: Uuid -> string, parse: string -> Option<Uuid>)

  ghost predicate RoundTrips(u: UuidText) { forall id :: u.parse(u.show(id)) == Some(id) }

  predicate IsHyphen(i: nat) { i == 8 || i == 13 || i == 18 || i == 23 }

  /** Where the `j`-th digit stands among groups of 8, 4, 4, 4 and 12. */
  function Place(j: nat): nat { if j < 8 then j else if j < 12 then j + 1 else if j < 16 then j + 2 else if j < 20 then j + 3 else j + 4 }

  function DigitAt(i: nat): (j: nat)
    ensures !IsHyphen(i) ==> Place(j) == i
  {
    if i < 8 then i else if i < 13 then i - 1 else if i < 18 then i - 2 else if i < 23 then i - 3 else i - 4
  }

  function Show(id: Uuid): string {
    seq(36, i requires 0 <= i < 36 => if IsHyphen(i) then '-' else id.digits[DigitAt(i)])
  }

  /** Groups of 8, 4, 4, 4 and 12 digits. */
  lemma ShownForm(id: Uuid)
    ensures var d := id.digits;
            Show(id) == d[..8] + "-" + d[8..12] + "-" + d[12..16] + "-" + d[16..20] + "-" + d[20..]
  {
  }

  /** 32 digits of either case. */
  function ParseSimple(s: string): Option<Uuid> {
    if Hex(Lower(s), 32) then Some(Uuid(Lower(s))) else None
  }

  function ParseHyphenated(s: string): Option<Uuid>
    requires |s| == 36
  {
    if s[8] == '-' && s[13] == '-' && s[18] == '-' && s[23] == '-'
    then ParseSimple(seq(32, j requires 0 <= j < 32 => s[Place(j)])) else None
  }

  /** Plain digits, or hyphenated ones, alone, in braces or as a URN. */
  function Parse(s: string): Option<Uuid> {
    if |s| == 32 then ParseSimple(s)
    else if |s| == 36 then ParseHyphenated(s)
    else if |s| == 38 && s[0] == '{' && s[37] == '}' then ParseHyphenated(s[1..37])
    else if |s| == 45 && s[..9] == "urn:uuid:" then ParseHyphenated(s[9..])
    else None
  }

  const STANDARD := UuidText(Show, Parse)

  lemma HyphenatedIff(s: string, id: Uuid)
    requires |s| == 36
    ensures ParseHyphenated(s) == Some(id) <==> Lower(s) == Show(id)
  {
    var packed := seq(32, j requires 0 <= j < 32 => s[Place(j)]);
    if ParseHyphenated(s) == Some(id) {
      assert Lower(packed) == id.digits;
      forall i | 0 <= i < 36 ensures Lower(s)[i] == Show(id)[i] {
        assert !IsHyphen(i) ==> packed[DigitAt(i)] == s[i] && Lower(packed)[DigitAt(i)] == id.digits[DigitAt(i)];
      }
    }
    if Lower(s) == Show(id) {
      forall i | 0 <= i < 36 ensures IsHyphen(i) ==> s[i] == '-' {
        assert Lower(s)[i] == Show(id)[i];
      }
      forall j | 0 <= j < 32 ensures Lower(packed)[j] == id.digits[j] {
        assert Lower(s)[Place(j)] == Show(id)[Place(j)];
      }
      assert Lower(packed) == id.digits;
    }
  }

  /** The spellings of an id: digits or hyphenated digits of either case, these also in braces or as a URN. */
  lemma ParseIff(s: string, id: Uuid)
    ensures Parse(s) == Some(id) <==>
            || Lower(s) == id.digits
            || Lower(s) == Show(id)
            || (|s| == 38 && s[0] == '{' && s[37] == '}' && Lower(s[1..37]) == Show(id))
            || (|s| == 45 && s[..9] == "urn:uuid:" && Lower(s[9..]) == Show(id))
  {
    if |s| == 36 {
      HyphenatedIff(s, id);
    } else if |s| == 38 {
      HyphenatedIff(s[1..37], id);
    } else if |s| == 45 {
      HyphenatedIff(s[9..], id);
    }
    hide ParseHyphenated;
  }

  /** What is printed is read back, and so is its form in capitals. */
  lemma StandardRoundTrips()
    ensures RoundTrips(STANDARD)
    ensures forall id: Uuid :: Parse(Upper(Show(id))) == Some(id)
  {
    forall id: Uuid ensures Parse(Show(id)) == Some(id) && Parse(Upper(Show(id))) == Some(id) {
      ParseIff(Show(id), id);
      ParseIff(Upper(Show(id)), id);
      LowerShown(id);
      hide Parse;
    }
  }

  lemma LowerShown(id: Uuid)
    ensures Lower(Show(id)) == Show(id) && Lower(Upper(Show(id))) == Show(id)
  {
    forall i | 0 <= i < 36 ensures Lower(Show(id))[i] == Show(id)[i] == Lower(Upper(Show(id)))[i] {
      assert Show(id)[i] == '-' || IsHex(Show(id)[i]);
    }
  }
}
