/** The condition grammar of an owner attestation: its validator, its evaluator and what they mean. */
module Conditions {
  import opened Wrappers
  import opened Text

  datatype Clause = Kind(n: nat) | Before(n: nat) | After(n: nat)

  const KIND := "kind="
  const BEFORE := "created_at<"
  const AFTER := "created_at>"

  /** Bare decimal digits, no leading zero, at most `u32::MAX`. */
  function ParseDecimal(s: string): Option<nat> {
    if s == "" then None
    else if s[0] == '+' || s[0] == '-' then None
    else if |s| > 1 && s[0] == '0' then None
    else if !AllDigits(s) then None
    else if ValueOf(s) > U32_MAX then None
    else Some(ValueOf(s))
  }

  /** Reading decimals is the exact inverse of printing them. */
  lemma ParseDecimalIff(s: string, n: nat)
    ensures ParseDecimal(s) == Some(n) <==> n <= U32_MAX && s == Decimal(n)
  {
    DecimalReads(n);
    if ParseDecimal(s).Some? {
      NumeralPrints(s);
    }
  }

  /** One clause, by its prefix. */
  function ReadClause(s: string): Option<Clause> {
    var kind, before, after := StripPrefix(s, KIND), StripPrefix(s, BEFORE), StripPrefix(s, AFTER);
    if kind.Some? then
      var n := ParseDecimal(kind.value);
      if n.Some? && n.value <= 65535 then Some(Kind(n.value)) else None
    else if before.Some? then
      var n := ParseDecimal(before.value);
      if n.Some? then Some(Before(n.value)) else None
    else if after.Some? then
      var n := ParseDecimal(after.value);
      if n.Some? then Some(After(n.value)) else None
    else None
  }

  predicate AllRead(pieces: seq<string>) {
    pieces == [] || (pieces[0] != "" && ReadClause(pieces[0]).Some? && AllRead(pieces[1..]))
  }

  /** `validate_conditions`. */
  predicate Validate(s: string) { s == "" || AllRead(Split(s, '&')) }

  /** The time lies inside the bound of every piece that states one. */
  predicate AllHold(pieces: seq<string>, t: nat) {
    pieces == [] ||
    (var before, after := StripPrefix(pieces[0], BEFORE), StripPrefix(pieces[0], AFTER);
     var ok :=
       if before.Some? then (var n := ParseDecimal(before.value); n.None? || t < n.value)
       else if after.Some? then (var n := ParseDecimal(after.value); n.None? || t > n.value)
       else true;
     ok && AllHold(pieces[1..], t))
  }

  /** `enforce_conditions`: whether `t` is accepted. */
  predicate Enforce(s: string, t: nat) { s == "" || AllHold(Split(s, '&'), t) }

  // ---- The grammar ----

  predicate ValidClause(c: Clause) { c.n <= if c.Kind? then 65535 else U32_MAX }

  function PrintClause(c: Clause): string {
    (match c case Kind(_) => KIND case Before(_) => BEFORE case After(_) => AFTER) + Decimal(c.n)
  }

  function PrintAll(clauses: seq<Clause>): seq<string> {
    seq(|clauses|, i requires 0 <= i < |clauses| => PrintClause(clauses[i]))
  }

  function PrintClauses(clauses: seq<Clause>): string {
    if clauses == [] then "" else Join(PrintAll(clauses), '&')
  }

  predicate Satisfied(c: Clause, t: nat) {
    match c case Kind(_) => true case Before(n) => t < n case After(n) => n < t
  }

  /** The characters a condition string is made of. */
  predicate ConditionChar(c: char) {
    IsDigit(c) || 'a' <= c <= 'z' || c == '_' || c == '=' || c == '<' || c == '>' || c == '&'
  }

  predicate ConditionChars(s: string) { forall i | 0 <= i < |s| :: ConditionChar(s[i]) }

  lemma Prefixed(prefix: string, d: string)
    ensures StripPrefix(prefix + d, prefix) == Some(d)
  {
    assert (prefix + d)[|prefix|..] == d;
  }

  /** Reading clauses is the exact inverse of printing valid ones. */
  lemma ReadClauseIff(s: string, c: Clause)
    ensures ReadClause(s) == Some(c) <==> ValidClause(c) && s == PrintClause(c)
  {
    var prefix := match c case Kind(_) => KIND case Before(_) => BEFORE case After(_) => AFTER;
    if prefix <= s {
      assert s == prefix + s[|prefix|..];
      assert prefix[0] == s[0] && (|prefix| == 11 ==> prefix[10] == s[10]);
      ParseDecimalIff(s[|prefix|..], c.n);
      assert s == PrintClause(c) <==> s[|prefix|..] == Decimal(c.n) by { Prefixed(prefix, Decimal(c.n)); }
    } else {
      assert prefix <= PrintClause(c);
    }
    hide ParseDecimal, Decimal, ValueOf;
  }

  lemma ClausePiece(c: Clause)
    ensures PrintClause(c) != "" && '&' !in PrintClause(c) && ConditionChars(PrintClause(c))
  {
    DecimalReads(c.n);
  }

  lemma {:induction false} PiecesAreClauses(pieces: seq<string>) returns (clauses: seq<Clause>)
    requires AllRead(pieces)
    ensures pieces == PrintAll(clauses) && forall i | 0 <= i < |clauses| :: ValidClause(clauses[i])
  {
    if pieces == [] {
      clauses := [];
    } else {
      var rest := PiecesAreClauses(pieces[1..]);
      var c := ReadClause(pieces[0]).value;
      ReadClauseIff(pieces[0], c);
      clauses := [c] + rest;
      assert pieces == [pieces[0]] + pieces[1..];
      assert PrintAll(clauses) == [PrintClause(c)] + PrintAll(rest);
    }
  }

  lemma {:induction false} ClausesRead(clauses: seq<Clause>)
    requires forall i | 0 <= i < |clauses| :: ValidClause(clauses[i])
    ensures AllRead(PrintAll(clauses))
  {
    if clauses != [] {
      ClausesRead(clauses[1..]);
      ClausePiece(clauses[0]);
      ReadClauseIff(PrintClause(clauses[0]), clauses[0]);
      assert PrintAll(clauses)[1..] == PrintAll(clauses[1..]);
    }
  }

  lemma ClausesSplit(clauses: seq<Clause>)
    requires clauses != []
    ensures Split(PrintClauses(clauses), '&') == PrintAll(clauses) && PrintClauses(clauses) != ""
  {
    forall i | 0 <= i < |clauses| ensures '&' !in PrintAll(clauses)[i] {
      ClausePiece(clauses[i]);
    }
    SplitJoin(PrintAll(clauses), '&');
    ClausePiece(clauses[0]);
  }

  ghost predicate Spells(s: string, clauses: seq<Clause>) {
    s == PrintClauses(clauses) && forall i | 0 <= i < |clauses| :: ValidClause(clauses[i])
  }

  /** The validator accepts exactly the printed lists of valid clauses. */
  lemma ValidateIff(s: string)
    ensures Validate(s) <==> exists clauses :: Spells(s, clauses)
  {
    if s == "" {
      assert Spells(s, []);
    } else {
      if Validate(s) {
        var clauses := PiecesAreClauses(Split(s, '&'));
        JoinSplit(s, '&');
        assert Spells(s, clauses);
      }
      forall clauses | Spells(s, clauses) ensures Validate(s) {
        ClausesSplit(clauses);
        ClausesRead(clauses);
      }
    }
  }

  lemma ClauseHolds(c: Clause, t: nat, rest: seq<string>)
    requires ValidClause(c)
    ensures AllHold([PrintClause(c)] + rest, t) <==> Satisfied(c, t) && AllHold(rest, t)
  {
    var s, d := PrintClause(c), Decimal(c.n);
    assert ([s] + rest)[1..] == rest;
    ParseDecimalIff(d, c.n);
    hide ParseDecimal, Decimal;
    match c
    case Kind(_) => assert s[0] == 'k' && BEFORE[0] == 'c' && AFTER[0] == 'c';
    case Before(_) => Prefixed(BEFORE, d);
    case After(_) =>
      Prefixed(AFTER, d);
      assert s[10] == '>' && BEFORE[10] == '<';
  }

  lemma {:induction false} ClausesHold(clauses: seq<Clause>, t: nat)
    requires forall i | 0 <= i < |clauses| :: ValidClause(clauses[i])
    ensures AllHold(PrintAll(clauses), t) <==> forall i | 0 <= i < |clauses| :: Satisfied(clauses[i], t)
  {
    if clauses != [] {
      ClausesHold(clauses[1..], t);
      ClauseHolds(clauses[0], t, PrintAll(clauses[1..]));
      assert PrintAll(clauses) == [PrintClause(clauses[0])] + PrintAll(clauses[1..]);
      hide AllHold, Satisfied;
      assert forall i | 1 <= i < |clauses| :: clauses[i] == clauses[1..][i - 1];
    }
  }

  /** A time is accepted exactly when it lies strictly inside every bound; kind clauses never matter. */
  lemma EnforceIff(s: string, clauses: seq<Clause>, t: nat)
    requires Spells(s, clauses)
    ensures Enforce(s, t) <==> forall i | 0 <= i < |clauses| :: Satisfied(clauses[i], t)
  {
    if clauses != [] {
      ClausesSplit(clauses);
      ClausesHold(clauses, t);
    }
  }

  /** The order, the repetition and the kind clauses of a condition string make no difference. */
  lemma EnforceOnlyBounds(s: string, clauses: seq<Clause>, s': string, clauses': seq<Clause>, t: nat)
    requires Spells(s, clauses) && Spells(s', clauses')
    requires forall c: Clause | !c.Kind? :: c in clauses <==> c in clauses'
    ensures Enforce(s, t) == Enforce(s', t)
  {
    EnforceIff(s, clauses, t);
    EnforceIff(s', clauses', t);
    if i :| 0 <= i < |clauses| && !Satisfied(clauses[i], t) {
      assert clauses[i] in clauses';
    }
    if i :| 0 <= i < |clauses'| && !Satisfied(clauses'[i], t) {
      assert clauses'[i] in clauses;
    }
  }

  lemma {:induction false} JoinedChars(pieces: seq<string>)
    requires pieces != [] && forall i | 0 <= i < |pieces| :: ConditionChars(pieces[i])
    ensures ConditionChars(Join(pieces, '&'))
  {
    if |pieces| > 1 {
      JoinedChars(pieces[1..]);
    }
  }

  lemma ValidChars(s: string)
    requires Validate(s)
    ensures ConditionChars(s)
  {
    if s != "" {
      var clauses := PiecesAreClauses(Split(s, '&'));
      JoinSplit(s, '&');
      forall i | 0 <= i < |clauses| ensures ConditionChars(PrintAll(clauses)[i]) {
        ClausePiece(clauses[i]);
      }
      JoinedChars(PrintAll(clauses));
    }
  }

  /** The three clauses as they are written. */
  lemma ClauseForms(n: nat)
    ensures PrintClause(Kind(n)) == "kind=" + Decimal(n)
    ensures PrintClause(Before(n)) == "created_at<" + Decimal(n)
    ensures PrintClause(After(n)) == "created_at>" + Decimal(n)
  {
  }

  /** A single bound, end to end: strict on both sides. */
  lemma OneBound(n: nat, t: nat)
    requires n <= 4_294_967_295
    ensures Enforce("created_at<" + Decimal(n), t) <==> t < n
    ensures Enforce("created_at>" + Decimal(n), t) <==> t > n
    ensures Validate("created_at<" + Decimal(n)) && Validate("created_at>" + Decimal(n))
    ensures Validate("kind=" + Decimal(n)) <==> n <= 65535
  {
    ClauseForms(n);
    SingleClause(Before(n), t);
    SingleClause(After(n), t);
    if n <= 65535 {
      SingleClause(Kind(n), t);
    } else if Validate("kind=" + Decimal(n)) {
      KindTooLarge(n);
    }
    hide Enforce, Validate, Decimal, PrintClause;
  }

  lemma SingleClause(c: Clause, t: nat)
    requires ValidClause(c)
    ensures Validate(PrintClause(c)) && (Enforce(PrintClause(c), t) <==> Satisfied(c, t))
  {
    var s := PrintClause(c);
    assert PrintAll([c]) == [s];
    assert Spells(s, [c]);
    ValidateIff(s);
    EnforceIff(s, [c], t);
    assert [c][0] == c;
    hide Enforce, Validate, PrintClause, Spells;
  }

  lemma KindTooLarge(n: nat)
    requires n > 65535
    ensures !Validate("kind=" + Decimal(n))
  {
    var s := PrintClause(Kind(n));
    ClausePiece(Kind(n));
    SplitFirst(s, "", '&');
    if Validate(s) {
      assert AllRead([s]);
      var c := ReadClause(s).value;
      ReadClauseIff(s, c);
      assert s[0] == 'k' && c.Kind?;
      assert Decimal(n) == s[5..] == Decimal(c.n);
      DecimalReads(n);
      DecimalReads(c.n);
      assert false;
    }
  }
}
