/** The contact form validator: per-field rules (required, e-mail syntax,
    corporate domain), the error state each field shows, and whole-form
    validation with the honeypot check. */
module ContactForm {
  import opened Wrappers
  import opened Text

  /** The validated controls, in the order the validator visits them. */
  datatype FieldName = Nombre | Email | Empresa | Mensaje | Timestamp

  const FieldOrder: seq<FieldName> := [Nombre, Email, Empresa, Mensaje, Timestamp]

  /** The place of a field in `FieldOrder`. */
  function Rank(name: FieldName): (r: nat)
    ensures r < |FieldOrder| && FieldOrder[r] == name
  {
    match name
    case Nombre => 0
    case Email => 1
    case Empresa => 2
    case Mensaje => 3
    case Timestamp => 4
  }

  const RequiredMessage: string := "Este campo es obligatorio."
  const EmailSyntaxMessage: string := "Por favor, ingresa un email válido."
  const CorporateMessage: string := "Por favor, utiliza un email corporativo."

  /** Personal mail providers refused by the corporate-domain policy. */
  const PersonalDomains: seq<string> :=
    ["gmail.com", "yahoo.com", "hotmail.com", "outlook.com",
     "live.com", "icloud.com", "protonmail.com", "aol.com"]

  // ---------------------------------------------------------------------
  // E-mail syntax: /^[^\s@]+@[^\s@]+\.[^\s@]+$/

  /** A character of the class `[^\s@]`. */
  predicate PlainChar(c: char) {
    !IsSpace(c) && c != '@'
  }

  /** `s[lo..hi]` is a match of `[^\s@]+`. */
  predicate PlainRun(s: string, lo: int, hi: int) {
    0 <= lo < hi <= |s| && forall k :: lo <= k < hi ==> PlainChar(s[k])
  }

  /** What the regular expression accepts, stated through the positions of
      the `@` and of the literal `.` it matches. */
  ghost predicate MatchesEmailPattern(s: string) {
    exists at, dot ::
      && 0 < at < dot < |s| - 1
      && s[at] == '@' && s[dot] == '.'
      && PlainRun(s, 0, at) && PlainRun(s, at + 1, dot) && PlainRun(s, dot + 1, |s|)
  }

  /** `isValidEmail`, decided by scanning: no whitespace, text before the
      first `@`, no second `@`, and a `.` with text on both sides after it. */
  predicate IsValidEmail(s: string) {
    var at := Find(s, '@');
    && NoSpace(s)
    && 0 < at < |s|
    && (forall k :: at < k < |s| ==> s[k] != '@')
    && exists dot :: at + 1 < dot < |s| - 1 && s[dot] == '.'
  }

  /** Every address the scan accepts matches the regular expression. */
  lemma EmailScanSound(s: string)
    requires IsValidEmail(s)
    ensures MatchesEmailPattern(s)
  {
    var at := Find(s, '@');
    var dot :| at + 1 < dot < |s| - 1 && s[dot] == '.';
    assert PlainRun(s, 0, at) && PlainRun(s, at + 1, dot) && PlainRun(s, dot + 1, |s|);
  }

  /** Every string the regular expression matches passes the scan. */
  lemma EmailScanComplete(s: string, at: int, dot: int)
    requires 0 < at < dot < |s| - 1
    requires s[at] == '@' && s[dot] == '.'
    requires PlainRun(s, 0, at) && PlainRun(s, at + 1, dot) && PlainRun(s, dot + 1, |s|)
    ensures IsValidEmail(s)
    ensures Find(s, '@') == at
  {
    assert Find(s, '@') == at;
    forall k | 0 <= k < |s| ensures !IsSpace(s[k]) {
      if k != at && k != dot {
        assert PlainChar(s[k]);
      }
    }
  }

  /** The scan accepts exactly the strings the regular expression matches. */
  lemma EmailPatternIff(s: string)
    ensures IsValidEmail(s) <==> MatchesEmailPattern(s)
  {
    if IsValidEmail(s) {
      EmailScanSound(s);
    }
    if MatchesEmailPattern(s) {
      var at, dot :| && 0 < at < dot < |s| - 1
                     && s[at] == '@' && s[dot] == '.'
                     && PlainRun(s, 0, at) && PlainRun(s, at + 1, dot) && PlainRun(s, dot + 1, |s|);
      EmailScanComplete(s, at, dot);
    }
  }

  // ---------------------------------------------------------------------
  // Corporate-domain policy

  /** `email.split('@')[1]`: the text between the first `@` and the next
      one (or the end); none when there is no `@`. */
  function AfterFirstAt(s: string): (r: Option<string>)
    ensures r.None? <==> Find(s, '@') == |s|
    ensures r.Some? ==>
              var at := Find(s, '@');
              && at + 1 + |r.value| <= |s|
              && r.value == s[at + 1..at + 1 + |r.value|]
              && (forall k :: 0 <= k < |r.value| ==> r.value[k] != '@')
              && (at + 1 + |r.value| == |s| || s[at + 1 + |r.value|] == '@')
  {
    var at := Find(s, '@');
    if at == |s| then None
    else
      var rest := s[at + 1..];
      Some(rest[..Find(rest, '@')])
  }

  /** `isCorporateEmail`: the second `@`-separated segment exists, is not
      empty, and lower-cased is not a personal provider. */
  predicate IsCorporateEmail(s: string) {
    match AfterFirstAt(s)
    case None => false
    case Some(domain) => domain != [] && Lower(domain) !in PersonalDomains
  }

  /** For an address that passes the syntax check, the policy looks at the
      whole text after its only `@`, ignoring letter case. */
  lemma {:induction false} CorporateOfValidEmail(s: string)
    requires IsValidEmail(s)
    ensures IsCorporateEmail(s) <==> Lower(s[Find(s, '@') + 1..]) !in PersonalDomains
  {
    var at := Find(s, '@');
    var rest := s[at + 1..];
    forall k | 0 <= k < |rest| ensures rest[k] != '@' {
      assert rest[k] == s[at + 1 + k];
    }
    assert Find(rest, '@') == |rest|;
    assert rest[..|rest|] == rest;
    assert AfterFirstAt(s) == Some(rest);
  }

  // ---------------------------------------------------------------------
  // One field

  datatype Verdict = Pass | Fail(message: string)

  /** The decision of `validateField`: the required rule first, then, for a
      non-blank e-mail, the syntax rule and the corporate rule; a later
      failure replaces an earlier message. */
  function FieldVerdict(name: FieldName, value: string, required: bool): (r: Verdict)
    ensures r.Fail? ==> r.message in {RequiredMessage, EmailSyntaxMessage, CorporateMessage}
    ensures r.Fail? ==> r.message != []
  {
    var first := if required && Trim(value) == [] then Fail(RequiredMessage) else Pass;
    if name == Email && Trim(value) != [] then
      if !IsValidEmail(value) then Fail(EmailSyntaxMessage)
      else if !IsCorporateEmail(value) then Fail(CorporateMessage)
      else first
    else first
  }

  /** The rules and their precedence, with blankness stated as "all
      whitespace" and syntax as the regular expression's meaning. */
  lemma FieldVerdictRules(name: FieldName, value: string, required: bool)
    ensures required && AllSpace(value) ==>
              FieldVerdict(name, value, required) == Fail(RequiredMessage)
    ensures name == Email && !AllSpace(value) && !MatchesEmailPattern(value) ==>
              FieldVerdict(name, value, required) == Fail(EmailSyntaxMessage)
    ensures name == Email && MatchesEmailPattern(value) && !IsCorporateEmail(value) ==>
              FieldVerdict(name, value, required) == Fail(CorporateMessage)
    ensures name == Email && MatchesEmailPattern(value) && IsCorporateEmail(value) ==>
              FieldVerdict(name, value, required) == Pass
    ensures !required && AllSpace(value) ==> FieldVerdict(name, value, required) == Pass
    ensures name != Email ==>
              (FieldVerdict(name, value, required).Pass? <==> !(required && AllSpace(value)))
  {
    TrimEmptyIff(value);
    EmailPatternIff(value);
    if MatchesEmailPattern(value) {
      assert !IsSpace(value[0]);
    }
  }

  /** A personal provider's address fails with the corporate message. */
  lemma PersonalAddressRefused(required: bool, s: string)
    requires s == "user@gmail.com"
    ensures FieldVerdict(Email, s, required) == Fail(CorporateMessage)
  {
    assert PlainRun(s, 0, 4) && PlainRun(s, 5, 10) && PlainRun(s, 11, |s|);
    LowerUnchanged(s[5..]);
    assert Lower(s[5..]) == PersonalDomains[0];
    MatchedAddressVerdict(required, s, 4, 10);
  }

  /** A company address passes. */
  lemma CompanyAddressAccepted(required: bool, s: string)
    requires s == "user@acme.com"
    ensures FieldVerdict(Email, s, required) == Pass
  {
    assert PlainRun(s, 0, 4) && PlainRun(s, 5, 9) && PlainRun(s, 10, |s|);
    LowerUnchanged(s[5..]);
    assert Lower(s[5..]) == "acme.com";
    MatchedAddressVerdict(required, s, 4, 9);
  }

  /** Text without `@` fails with the syntax message. */
  lemma MalformedAddressRefused(required: bool, s: string)
    requires s == "not-an-email"
    ensures FieldVerdict(Email, s, required) == Fail(EmailSyntaxMessage)
  {
    assert !IsSpace(s[0]);
    assert forall k :: 0 <= k < |s| ==> s[k] != '@';
    assert !IsValidEmail(s);
    EmailPatternIff(s);
    FieldVerdictRules(Email, s, required);
  }

  /** An address that passes the syntax check is judged on its domain alone,
      whether or not the field is required. */
  lemma {:induction false} ValidAddressVerdict(required: bool, s: string)
    requires IsValidEmail(s)
    ensures FieldVerdict(Email, s, required) ==
              if Lower(s[Find(s, '@') + 1..]) in PersonalDomains then Fail(CorporateMessage) else Pass
  {
    assert !IsSpace(s[0]);
    TrimEmptyIff(s);
    CorporateOfValidEmail(s);
  }

  /** An address the regular expression matches, with its `@` at `at`, is
      judged on the lower-cased text after that `@` alone. */
  lemma {:induction false} MatchedAddressVerdict(required: bool, s: string, at: int, dot: int)
    requires 0 < at < dot < |s| - 1
    requires s[at] == '@' && s[dot] == '.'
    requires PlainRun(s, 0, at) && PlainRun(s, at + 1, dot) && PlainRun(s, dot + 1, |s|)
    ensures FieldVerdict(Email, s, required) ==
              if Lower(s[at + 1..]) in PersonalDomains then Fail(CorporateMessage) else Pass
  {
    EmailScanComplete(s, at, dot);
    ValidAddressVerdict(required, s);
  }

  // ---------------------------------------------------------------------
  // Field state shown on the page

  /** The `aria-invalid` attribute of a control. */
  datatype Aria = AriaUnset | AriaFalse | AriaTrue

  /** The `{field}-error` element: its text and its `visible` class. */
  datatype ErrorElement = ErrorElement(text: string, visible: bool)

  /** A control as the validator sees it; `error` is none when the page has
      no error element for it. */
  datatype Field = Field(value: string, required: bool, ariaInvalid: Aria, error: Option<ErrorElement>)

  /** A field marked invalid shows a non-empty message; a visible message
      comes with the invalid marker. */
  predicate Consistent(f: Field) {
    f.error.Some? ==>
      && (f.ariaInvalid == AriaTrue ==> f.error.value.visible && f.error.value.text != [])
      && (f.error.value.visible ==> f.ariaInvalid == AriaTrue)
  }

  /** `updateFieldState`. */
  function ShowVerdict(f: Field, v: Verdict): (r: Field)
    requires f.error.Some?
    requires v.Fail? ==> v.message != []
    ensures Consistent(r)
    ensures r.value == f.value && r.required == f.required && r.error.Some?
    ensures r.ariaInvalid == AriaTrue <==> v.Fail?
    ensures v.Fail? ==> r.error.value.text == v.message
    ensures v.Pass? ==> r.ariaInvalid == AriaFalse && r.error == Some(ErrorElement([], false))
  {
    match v
    case Pass => f.(ariaInvalid := AriaFalse, error := Some(ErrorElement([], false)))
    case Fail(message) => f.(ariaInvalid := AriaTrue, error := Some(ErrorElement(message, true)))
  }

  /** The field after `validateField(name)`; untouched without an error element. */
  function Refreshed(f: Field, name: FieldName): (r: Field)
    ensures r.value == f.value && r.required == f.required && r.error.Some? == f.error.Some?
    ensures f.error.Some? ==> Consistent(r)
  {
    if f.error.Some? then ShowVerdict(f, FieldVerdict(name, f.value, f.required)) else f
  }

  /** Whether a control passes `validateField`: always, without an error
      element. */
  predicate FieldPasses(f: Field, name: FieldName) {
    f.error.None? || FieldVerdict(name, f.value, f.required).Pass?
  }

  /** The result `validateField(name)` returns: true for a missing control
      or error element. */
  predicate FieldOk(fields: map<FieldName, Field>, name: FieldName) {
    name !in fields || FieldPasses(fields[name], name)
  }

  /** `clearFieldError`: hides the message and resets the marker once the
      value is not blank; the message text itself stays. */
  function Cleared(f: Field): (r: Field)
    ensures Consistent(f) ==> Consistent(r)
    ensures r.value == f.value && r.required == f.required
    ensures f.error.Some? && !AllSpace(f.value) ==>
              r.ariaInvalid == AriaFalse && r.error == Some(f.error.value.(visible := false))
    ensures f.error.None? || AllSpace(f.value) ==> r == f
  {
    TrimEmptyIff(f.value);
    if f.error.Some? && Trim(f.value) != [] then
      f.(ariaInvalid := AriaFalse, error := Some(f.error.value.(visible := false)))
    else f
  }

  /** The outcome of `validateForm`: every visible field passes and the
      honeypot, when present, is blank. */
  function FormAccepted(fields: map<FieldName, Field>, honeypot: Option<string>): (r: bool)
    ensures r <==> (forall name :: name != Timestamp ==> FieldOk(fields, name))
                   && (honeypot.None? || AllSpace(honeypot.value))
  {
    TrimEmptyIff(if honeypot.Some? then honeypot.value else []);
    assert forall name :: Rank(name) < |FieldOrder|;
    OkUpTo(fields, |FieldOrder|) && !HoneypotFilled(honeypot)
  }

  /** The hidden `website` input holds something other than whitespace. */
  predicate HoneypotFilled(honeypot: Option<string>) {
    honeypot.Some? && Trim(honeypot.value) != []
  }

  /** A filled honeypot rejects the form whatever the visible fields hold. */
  lemma HoneypotRejects(fields: map<FieldName, Field>, text: string)
    requires !AllSpace(text)
    ensures !FormAccepted(fields, Some(text))
  {
  }

  /** `fields` after `step` has run on each of the first `i` names of
      `FieldOrder` but the timestamp. */
  function Sweep(fields: map<FieldName, Field>, i: nat, step: (Field, FieldName) -> Field): map<FieldName, Field>
  {
    map k | k in fields :: if Rank(k) < i && k != Timestamp then step(fields[k], k) else fields[k]
  }

  /** Running `step` on the `i`-th name extends the sweep by one; the field
      it reads has not been touched by the sweep so far. */
  lemma SweepStep(fields: map<FieldName, Field>, i: nat, step: (Field, FieldName) -> Field)
    requires i < |FieldOrder|
    ensures var name := FieldOrder[i];
            && Sweep(fields, i, step).Keys == fields.Keys
            && (name in fields ==> Sweep(fields, i, step)[name] == fields[name])
            && Sweep(fields, i + 1, step) ==
                 if name == Timestamp || name !in fields then Sweep(fields, i, step)
                 else Sweep(fields, i, step)[name := step(fields[name], name)]
  {
    var name := FieldOrder[i];
    assert Rank(name) == i;
    forall k ensures Rank(k) < i + 1 <==> Rank(k) < i || k == name {
      if Rank(k) == i { assert k == FieldOrder[i]; }
    }
  }

  /** The fields after `validateField` has run on the first `i` names of
      `FieldOrder` (the timestamp is skipped). */
  function ValidatedUpTo(fields: map<FieldName, Field>, i: nat): map<FieldName, Field>
  {
    Sweep(fields, i, Refreshed)
  }

  /** The sweep keeps every consistent field consistent, and leaves every
      validated field that has an error element consistent whatever its
      state before. */
  lemma ValidatedConsistent(fields: map<FieldName, Field>, i: nat)
    ensures ValidatedUpTo(fields, i).Keys == fields.Keys
    ensures forall name :: name in fields && Consistent(fields[name]) ==>
                             Consistent(ValidatedUpTo(fields, i)[name])
    ensures forall name :: name in fields && Rank(name) < i && name != Timestamp && fields[name].error.Some? ==>
                             Consistent(ValidatedUpTo(fields, i)[name])
  {
  }

  /** Every field among the first `i` names of `FieldOrder` but the
      timestamp passes. */
  predicate OkUpTo(fields: map<FieldName, Field>, i: nat) {
    forall k :: Rank(k) < i && k != Timestamp ==> FieldOk(fields, k)
  }

  lemma OkStep(fields: map<FieldName, Field>, i: nat)
    requires i < |FieldOrder|
    ensures OkUpTo(fields, i + 1) <==>
              OkUpTo(fields, i) && (FieldOrder[i] == Timestamp || FieldOk(fields, FieldOrder[i]))
  {
    var name := FieldOrder[i];
    assert Rank(name) == i;
    forall k ensures Rank(k) < i + 1 <==> Rank(k) < i || k == name {
      if Rank(k) == i { assert k == FieldOrder[i]; }
    }
  }

  // ---------------------------------------------------------------------
  // The validator object

  class FormValidator {
    var fields: map<FieldName, Field>

    /** Every control's invalid marker agrees with its error element. The
        page's initial markup need not satisfy this; every method keeps it
        once it holds, and a validated field satisfies it in any case. */
    ghost predicate Valid()
      reads this
    {
      forall name :: name in fields ==> Consistent(fields[name])
    }

    /** The controls found on the page, as the page's markup has them. */
    constructor (controls: map<FieldName, Field>)
      ensures fields == controls
    {
      fields := controls;
    }

    /** `updateFieldState` on the named field. */
    method UpdateFieldState(name: FieldName, verdict: Verdict)
      requires name in fields && fields[name].error.Some?
      requires verdict.Fail? ==> verdict.message != []
      modifies this`fields
      ensures old(Valid()) ==> Valid()
      ensures fields == old(fields)[name := ShowVerdict(old(fields)[name], verdict)]
    {
      fields := fields[name := ShowVerdict(fields[name], verdict)];
    }

    /** `validateField`: a failing field ends up marked invalid with its
        message visible; a passing one ends up marked valid with no message. */
    method ValidateField(name: FieldName) returns (ok: bool)
      modifies this`fields
      ensures old(Valid()) ==> Valid()
      ensures ok == FieldOk(old(fields), name)
      ensures fields == if name in old(fields) then old(fields)[name := Refreshed(old(fields)[name], name)]
                        else old(fields)
      ensures name in fields && fields[name].error.Some? ==> Consistent(fields[name])
      ensures !ok ==> fields[name].ariaInvalid == AriaTrue
                      && fields[name].error.Some? && fields[name].error.value.visible
                      && fields[name].error.value.text != []
    {
      if name !in fields || fields[name].error.None? {
        assert name in fields ==> fields[name := fields[name]] == fields;
        return true;
      }
      var field := fields[name];
      var isValid := true;
      var errorMessage := "";
      if field.required && Trim(field.value) == [] {
        isValid := false;
        errorMessage := RequiredMessage;
      }
      if name == Email && Trim(field.value) != [] {
        if !IsValidEmail(field.value) {
          isValid := false;
          errorMessage := EmailSyntaxMessage;
        } else if !IsCorporateEmail(field.value) {
          isValid := false;
          errorMessage := CorporateMessage;
        }
      }
      var verdict := if isValid then Pass else Fail(errorMessage);
      assert verdict == FieldVerdict(name, field.value, field.required);
      UpdateFieldState(name, verdict);
      ok := isValid;
    }

    /** `clearFieldError`. */
    method ClearFieldError(name: FieldName)
      modifies this`fields
      ensures old(Valid()) ==> Valid()
      ensures fields == if name in old(fields) then old(fields)[name := Cleared(old(fields)[name])]
                        else old(fields)
    {
      if name in fields && fields[name].error.Some? && Trim(fields[name].value) != [] {
        fields := fields[name := Cleared(fields[name])];
      }
      else if name in fields {
        assert Cleared(fields[name]) == fields[name] by { TrimEmptyIff(fields[name].value); }
        assert fields[name := fields[name]] == fields;
      }
    }

    /** The `input` event: the browser stores the typed value, then the
        listener clears the field's error if the value is not blank. */
    method HandleInput(name: FieldName, value: string)
      requires name in fields && name != Timestamp
      modifies this`fields
      ensures old(Valid()) ==> Valid()
      ensures fields == old(fields)[name := Cleared(old(fields)[name].(value := value))]
    {
      ghost var wasValid := Valid();
      fields := fields[name := fields[name].(value := value)];
      assert wasValid ==> Valid();
      ClearFieldError(name);
    }

    /** The `forEach` callback of `validateForm` for the `i`-th key: every
        field but the timestamp is validated. */
    method ValidateEntry(ghost before: map<FieldName, Field>, i: nat) returns (fieldValid: bool)
      requires i < |FieldOrder| && fields == ValidatedUpTo(before, i)
      modifies this`fields
      ensures fields == ValidatedUpTo(before, i + 1)
      ensures fieldValid == (FieldOrder[i] == Timestamp || FieldOk(before, FieldOrder[i]))
    {
      var name := FieldOrder[i];
      SweepStep(before, i, Refreshed);
      fieldValid := true;
      if name != Timestamp {
        fieldValid := ValidateField(name);
      }
    }

    /** The `forEach` of `validateForm`: every field but the timestamp is
        validated, in declaration order and without stopping at a failure;
        the result is whether all of them passed. */
    method ValidateFields() returns (allValid: bool)
      modifies this`fields
      ensures fields == ValidatedUpTo(old(fields), |FieldOrder|)
      ensures allValid == OkUpTo(old(fields), |FieldOrder|)
    {
      allValid := true;
      var i := 0;
      while i < |FieldOrder|
        invariant 0 <= i <= |FieldOrder|
        invariant fields == ValidatedUpTo(old(fields), i)
        invariant allValid == OkUpTo(old(fields), i)
      {
        OkStep(old(fields), i);
        var fieldValid := ValidateEntry(old(fields), i);
        if !fieldValid {
          allValid := false;
        }
        i := i + 1;
      }
    }

    /** `validateForm`: validates every field but the timestamp, then
        applies the honeypot check to the `website` input as the page holds
        it at the time of the call (none when the page has no such input). */
    method ValidateForm(website: Option<string>) returns (ok: bool)
      modifies this`fields
      ensures old(Valid()) ==> Valid()
      ensures forall name :: name in fields && name != Timestamp && fields[name].error.Some? ==>
                               Consistent(fields[name])
      ensures ok == FormAccepted(old(fields), website)
      ensures fields == ValidatedUpTo(old(fields), |FieldOrder|)
    {
      var isFormValid := ValidateFields();
      if HoneypotFilled(website) {
        isFormValid := false;
      }
      ValidatedConsistent(old(fields), |FieldOrder|);
      ok := isFormValid;
    }
  }
}
