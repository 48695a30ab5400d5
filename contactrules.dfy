/** The detailed validation of the contact form: seven rules over the name, the
    e-mail and the message, checked in a fixed order, the first one that fails
    deciding the Spanish error message shown to the visitor. */
module ContactRules {
  import opened JsText

  /** What the handler reads from the form: the three field values and the
      browser's verdict on the e-mail input (`email.checkValidity()`), whose
      definition belongs to the browser and is taken here as given. */
  datatype Submission = Submission(nombre: string, email: string, emailValid: bool, mensaje: string)

  /** The validation rules, one per check of the handler. */
  datatype Rule =
    | NameRequired     // the name is blank after trim
    | NameTooShort     // the raw name is shorter than 2 code units
    | NameChars        // the raw name does not match the name pattern
    | EmailRequired    // the e-mail is blank after trim
    | EmailFormat      // the browser reports the e-mail as invalid
    | MessageRequired  // the message is blank after trim
    | MessageTooShort  // the raw message is shorter than 10 code units

  datatype Outcome = Accepted | Rejected(rule: Rule)

  /** The position of a rule in the order the handler checks them. */
  function Rank(r: Rule): nat {
    match r
    case NameRequired => 0
    case NameTooShort => 1
    case NameChars => 2
    case EmailRequired => 3
    case EmailFormat => 4
    case MessageRequired => 5
    case MessageTooShort => 6
  }

  /** All rules, in checking order. */
  function Order(): (rules: seq<Rule>)
    ensures |rules| == 7
    ensures forall i :: 0 <= i < |rules| ==> Rank(rules[i]) == i
  {
    [NameRequired, NameTooShort, NameChars, EmailRequired, EmailFormat, MessageRequired, MessageTooShort]
  }

  /** The error text the handler shows when a rule fails. */
  function Message(r: Rule): string {
    match r
    case NameRequired => "El campo Nombre es obligatorio."
    case NameTooShort => "El nombre debe tener al menos 2 caracteres."
    case NameChars => "El nombre solo puede contener letras y espacios."
    case EmailRequired => "El campo Correo es obligatorio."
    case EmailFormat => "Por favor, ingresa un formato de correo válido (ej: tu@correo.com)."
    case MessageRequired => "El campo Mensaje es obligatorio."
    case MessageTooShort => "El mensaje debe tener al menos 10 caracteres."
  }

  /** The letters the name pattern admits: a-z, A-Z and the Spanish accented
      vowels, ñ and ü in both cases. */
  predicate IsNameLetter(c: char) {
    ('a' <= c <= 'z') || ('A' <= c <= 'Z') ||
    c == 'á' || c == 'é' || c == 'í' || c == 'ó' || c == 'ú' ||
    c == 'Á' || c == 'É' || c == 'Í' || c == 'Ó' || c == 'Ú' ||
    c == 'ñ' || c == 'Ñ' || c == 'ü' || c == 'Ü'
  }

  /** The character class `[a-zA-ZáéíóúÁÉÍÓÚñÑüÜ\s]`. */
  predicate IsNameChar(c: char) {
    IsNameLetter(c) || IsWs(c)
  }

  /** `/^[a-zA-ZáéíóúÁÉÍÓÚñÑüÜ\s]+$/.test(s)`: one or more characters, all of the
      class. Without the `m` flag the anchors hold only at the ends of `s`. */
  predicate MatchesNamePattern(s: string) {
    |s| >= 1 && forall i :: 0 <= i < |s| ==> IsNameChar(s[i])
  }

  /** The condition under which a rule, taken on its own, rejects a submission.
      Emptiness is judged on the trimmed value, length on the raw value. */
  predicate Fails(r: Rule, x: Submission) {
    match r
    case NameRequired => Trim(x.nombre) == []
    case NameTooShort => Utf16Length(x.nombre) < 2
    case NameChars => !MatchesNamePattern(x.nombre)
    case EmailRequired => Trim(x.email) == []
    case EmailFormat => !x.emailValid
    case MessageRequired => Trim(x.mensaje) == []
    case MessageTooShort => Utf16Length(x.mensaje) < 10
  }

  /** The validation chain: each check in turn, returning at the first failure.
      A submission is accepted exactly when no rule fails, and a rejection names
      a failing rule before which every rule passed. */
  function Validate(x: Submission): (o: Outcome)
    ensures o == Accepted ==> forall r: Rule :: !Fails(r, x)
    ensures o.Rejected? ==> Fails(o.rule, x)
    ensures o.Rejected? ==> forall q: Rule :: Rank(q) < Rank(o.rule) ==> !Fails(q, x)
  {
    if Trim(x.nombre) == [] then Rejected(NameRequired)
    else if Utf16Length(x.nombre) < 2 then Rejected(NameTooShort)
    else if !MatchesNamePattern(x.nombre) then Rejected(NameChars)
    else if Trim(x.email) == [] then Rejected(EmailRequired)
    else if !x.emailValid then Rejected(EmailFormat)
    else if Trim(x.mensaje) == [] then Rejected(MessageRequired)
    else if Utf16Length(x.mensaje) < 10 then Rejected(MessageTooShort)
    else Accepted
  }

  /** Reference definition of "the first failing rule": walk a list of rules in
      order and report the first one that fails. */
  function FirstFailing(rules: seq<Rule>, x: Submission): (o: Outcome)
    ensures o == Accepted <==> forall i :: 0 <= i < |rules| ==> !Fails(rules[i], x)
    ensures o.Rejected? ==> exists k :: 0 <= k < |rules| && rules[k] == o.rule && Fails(o.rule, x) &&
                                        forall i :: 0 <= i < k ==> !Fails(rules[i], x)
  {
    if rules == [] then Accepted
    else if Fails(rules[0], x) then Rejected(rules[0])
    else
      var o := FirstFailing(rules[1..], x);
      assert o.Rejected? ==> exists k :: 0 <= k < |rules| && rules[k] == o.rule && Fails(o.rule, x) &&
                                         forall i :: 0 <= i < k ==> !Fails(rules[i], x) by {
        if o.Rejected? {
          var k :| 0 <= k < |rules[1..]| && rules[1..][k] == o.rule && Fails(o.rule, x) &&
                   forall i :: 0 <= i < k ==> !Fails(rules[1..][i], x);
          assert forall i :: 1 <= i < k + 1 ==> !Fails(rules[i], x) by {
            forall i | 1 <= i < k + 1 ensures !Fails(rules[i], x) { assert rules[i] == rules[1..][i - 1]; }
          }
        }
      }
      o
  }

  /** The handler's chain agrees with the reference walk over the rules in
      checking order. */
  lemma ValidateIsFirstFailing(x: Submission)
    ensures Validate(x) == FirstFailing(Order(), x)
  {
    var rules := Order();
    var o := FirstFailing(rules, x);
    if o.Rejected? {
      var k :| 0 <= k < |rules| && rules[k] == o.rule && Fails(o.rule, x) &&
               forall i :: 0 <= i < k ==> !Fails(rules[i], x);
      forall q: Rule | Rank(q) < Rank(o.rule) ensures !Fails(q, x) {
        assert rules[Rank(q)] == q;
      }
      FirstFailureWins(x, o.rule);
    } else {
      forall q: Rule ensures !Fails(q, x) { assert rules[Rank(q)] == q; }
    }
  }

  /** The converse of Validate's contract: a failing rule before which every
      rule passes is the one reported. */
  lemma FirstFailureWins(x: Submission, r: Rule)
    requires Fails(r, x)
    requires forall q: Rule :: Rank(q) < Rank(r) ==> !Fails(q, x)
    ensures Validate(x) == Rejected(r)
  {
    var o := Validate(x);
    assert o.Rejected?;
    RankInjective(o.rule, r);
  }

  lemma RankInjective(p: Rule, q: Rule)
    ensures Rank(p) == Rank(q) ==> p == q
  {
  }

  /** Each rule has its own message, so the text shown identifies the rule. */
  lemma MessagesDistinct(p: Rule, q: Rule)
    ensures Message(p) == Message(q) ==> p == q
  {
    assert |Message(NameRequired)| == 31 && Message(NameRequired)[9] == 'N';
    assert |Message(EmailRequired)| == 31 && Message(EmailRequired)[9] == 'C';
    assert |Message(MessageRequired)| == 32;
    assert |Message(NameTooShort)| == 43;
    assert |Message(MessageTooShort)| == 45;
    assert |Message(NameChars)| == 48;
    assert |Message(EmailFormat)| == 67;
  }

  /** A blank name is reported as missing, whatever the other fields hold. */
  lemma BlankNameMasksAll(x: Submission)
    requires AllWs(x.nombre)
    ensures Validate(x) == Rejected(NameRequired)
  {
    TrimEmptyIffAllWs(x.nombre);
  }

  /** A name that is not blank but has fewer than 2 raw code units is reported
      as too short. */
  lemma ShortNameRejected(x: Submission)
    requires !AllWs(x.nombre) && Utf16Length(x.nombre) < 2
    ensures Validate(x) == Rejected(NameTooShort)
  {
    TrimEmptyIffAllWs(x.nombre);
  }

  /** The length rule counts white space: " a" passes it, and the whole name
      check, although its trimmed value has one character. */
  lemma PaddedNamePassesLength()
    ensures Trim(" a") == "a"
    ensures !Fails(NameRequired, Submission(" a", "", false, ""))
    ensures !Fails(NameTooShort, Submission(" a", "", false, ""))
    ensures !Fails(NameChars, Submission(" a", "", false, ""))
    ensures Validate(Submission(" a", "", false, "")) == Rejected(EmailRequired)
  {
    var x := Submission(" a", "", false, "");
    assert TrimStart(" a") == "a" by { assert " a"[1..] == "a"; }
    assert TrimEnd("a") == "a";
    assert Utf16Length(" a") == 2 by { assert " a"[..1] == " "; assert " "[..0] == []; }
    assert Trim("") == [];
  }

  /** `.length` counts UTF-16 code units, so a single character outside the
      Basic Multilingual Plane passes the length rule and is caught by the
      pattern instead. */
  lemma AstralNameCaughtByPattern(e: string, v: bool, m: string)
    ensures Validate(Submission("\U{1F600}", e, v, m)) == Rejected(NameChars)
  {
    var x := Submission("\U{1F600}", e, v, m);
    var s := x.nombre;
    assert !IsWs(s[0]) && !IsNameChar(s[0]);
    TrimEmptyIffAllWs(s);
    assert Utf16Length(s) == 2 by { assert s[..0] == []; }
    FirstFailureWins(x, NameChars);
  }

  /** Every accepted name has at least two characters and contains a letter:
      it is not blank, and every character that is not white space comes from
      the letter class. */
  lemma AcceptedNameHasLetter(x: Submission)
    requires Validate(x) == Accepted
    ensures |x.nombre| >= 2
    ensures exists i :: 0 <= i < |x.nombre| && IsNameLetter(x.nombre[i])
  {
    var s := x.nombre;
    assert Trim(s) != [] && MatchesNamePattern(s) && Utf16Length(s) >= 2 by {
      assert !Fails(NameRequired, x) && !Fails(NameChars, x) && !Fails(NameTooShort, x);
    }
    NonBlankNameHasLetter(s);
    BmpName(s);
  }

  /** A non-blank string matching the name pattern contains a letter. */
  lemma NonBlankNameHasLetter(s: string)
    requires Trim(s) != [] && MatchesNamePattern(s)
    ensures exists i :: 0 <= i < |s| && IsNameLetter(s[i])
  {
    TrimEmptyIffAllWs(s);
    var i :| 0 <= i < |s| && !IsWs(s[i]);
    assert IsNameChar(s[i]);
  }

  /** Every character the name pattern admits lies in the Basic Multilingual
      Plane, so a matching name's `.length` is its number of characters. */
  lemma BmpName(s: string)
    requires MatchesNamePattern(s)
    ensures Utf16Length(s) == |s|
  {
    forall k | 0 <= k < |s| ensures s[k] as int <= 0xFFFF { assert IsNameChar(s[k]); }
    Utf16LengthOfBmp(s);
  }

  /** The e-mail is reported missing when blank; otherwise, once the name is
      accepted, the format message is shown exactly when the browser reports
      the input invalid. */
  lemma EmailRules(x: Submission)
    requires !Fails(NameRequired, x) && !Fails(NameTooShort, x) && !Fails(NameChars, x)
    ensures AllWs(x.email) ==> Validate(x) == Rejected(EmailRequired)
    ensures !AllWs(x.email) ==> (Validate(x) == Rejected(EmailFormat) <==> !x.emailValid)
  {
    TrimEmptyIffAllWs(x.email);
  }

  /** Every accepted message has at least 10 UTF-16 code units (so at least 5
      characters) and at least one character that is not white space. */
  lemma AcceptedMessageShape(x: Submission)
    requires Validate(x) == Accepted
    ensures Utf16Length(x.mensaje) >= 10 && |x.mensaje| >= 5
    ensures exists i :: 0 <= i < |x.mensaje| && !IsWs(x.mensaje[i])
  {
    assert !Fails(MessageRequired, x) && !Fails(MessageTooShort, x);
    TrimEmptyIffAllWs(x.mensaje);
    Utf16LengthBounds(x.mensaje);
  }

  /** An invalid name masks every e-mail and message error: the outcome depends
      only on the name when one of the name rules fails. */
  lemma NameErrorMasksLaterFields(x: Submission, y: Submission)
    requires x.nombre == y.nombre
    requires Validate(x).Rejected? && Rank(Validate(x).rule) <= Rank(NameChars)
    ensures Validate(y) == Validate(x)
  {
  }
}
