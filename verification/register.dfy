/**
 * The registration page (src/pages/Register.tsx): the nine-field form, the
 * field update of `handleChange`, the first-failure-wins `validate`, and the
 * error list of `handleSubmit`. The store's `register` call is not defined in
 * this codebase; its result is an input.
 */
module Register {
  import opened Wrappers
  import opened Js

  const PASSWORD_SHORT: string := "La contraseña debe tener al menos 8 caracteres"
  const PASSWORD_MISMATCH: string := "Las contraseñas no coinciden"
  const EMAIL_INVALID: string := "El email no es válido"
  const DNI_NOT_DIGITS: string := "El DNI solo debe contener números"
  const MIN_PASSWORD: nat := 8

  /** The form's fields, named as the inputs' `name` attributes. */
  datatype FieldName = Username | Dni | Email | Password | RepeatPassword | Name | Lastname | Birthdate | Phone

  datatype Form = Form(
    username: string, dni: string, email: string, password: string, repeatPassword: string,
    name: string, lastname: string, birthdate: string, phone: string)

  const EMPTY_FORM: Form := Form("", "", "", "", "", "", "", "", "")

  /** The value of one field. */
  function Read(f: Form, field: FieldName): string {
    match field
    case Username => f.username
    case Dni => f.dni
    case Email => f.email
    case Password => f.password
    case RepeatPassword => f.repeatPassword
    case Name => f.name
    case Lastname => f.lastname
    case Birthdate => f.birthdate
    case Phone => f.phone
  }

  /** `{ ...prev, [name]: value }`: the named field takes the value and no other field changes. */
  function With(f: Form, field: FieldName, value: string): (g: Form)
    ensures Read(g, field) == value
    ensures forall other :: other != field ==> Read(g, other) == Read(f, other)
  {
    match field
    case Username => f.(username := value)
    case Dni => f.(dni := value)
    case Email => f.(email := value)
    case Password => f.(password := value)
    case RepeatPassword => f.(repeatPassword := value)
    case Name => f.(name := value)
    case Lastname => f.(lastname := value)
    case Birthdate => f.(birthdate := value)
    case Phone => f.(phone := value)
  }

  /** Writing a field twice keeps the second value; writing back what is there changes nothing. */
  lemma WithOverwrites(f: Form, field: FieldName, v: string, w: string)
    ensures With(With(f, field, v), field, w) == With(f, field, w)
    ensures With(f, field, Read(f, field)) == f
  {
  }

  /**
   * `\S+@\S+\.\S+` matches at `a` (the '@') and `d` (the '.'): a non-space before
   * the '@', non-spaces between it and the dot, and a non-space after the dot.
   */
  predicate EmailAt(s: string, a: int, d: int) {
    1 <= a && a + 2 <= d && d + 2 <= |s| &&
    s[a] == '@' && s[d] == '.' && !IsSpace(s[a - 1]) && !IsSpace(s[d + 1]) &&
    forall k :: a < k < d ==> !IsSpace(s[k])
  }

  /**
   * `/\S+@\S+\.\S+/.test(s)`: the pattern is not anchored, so a match anywhere
   * counts; the shortest matching text has five characters.
   */
  predicate EmailShaped(s: string): (b: bool)
    ensures b ==> |s| >= 5 && '@' in s && '.' in s
  {
    exists a, d :: 1 <= a < |s| && a + 2 <= d < |s| - 1 && EmailAt(s, a, d)
  }

  /** `/^\d+$/.test(s)`: one or more ASCII digits and nothing else, so `Number(dni)` is its value. */
  predicate DniShaped(s: string): (b: bool)
    ensures b ==> AllDigits(s) && StringToNumber(s) == Finite(DigitsValue(s) as real)
  {
    var b := s != [] && AllDigits(s);
    if b then
      NumeralCharsAreNotSpace(s[0]);
      NumeralCharsAreNotSpace(s[|s| - 1]);
      TrimKeepsUnpadded(s);
      b
    else b
  }

  /** A typical address matches; one without a dot after the '@', or with a space before it, does not. */
  lemma EmailExamples()
    ensures EmailShaped("ana@mail.com")
    ensures !EmailShaped("ana@mail")
    ensures !EmailShaped("ana @.com")
  {
    assert EmailAt("ana@mail.com", 3, 8);
  }

  /** Because the pattern is unanchored, text around a matching address does not stop the match. */
  lemma EmailShapedExtends(p: string, s: string, q: string)
    requires EmailShaped(s)
    ensures EmailShaped(p + s + q)
  {
    var a, d :| 1 <= a < |s| && a + 2 <= d < |s| - 1 && EmailAt(s, a, d);
    var t := p + s + q;
    assert forall k :: 0 <= k < |s| ==> t[|p| + k] == s[k];
    assert EmailAt(t, |p| + a, |p| + d);
  }

  /** Every address that matches has an '@' and, after it, a '.'. */
  lemma EmailShapedHasAtThenDot(s: string)
    requires EmailShaped(s)
    ensures exists a, d :: 0 <= a < d < |s| && s[a] == '@' && s[d] == '.'
  {
    var a, d :| 1 <= a < |s| && a + 2 <= d < |s| - 1 && EmailAt(s, a, d);
  }

  /** Any natural number's decimal text is an acceptable DNI, and text with a non-digit is not. */
  lemma DniExamples(n: nat)
    ensures DniShaped(NatToString(n))
    ensures !DniShaped("12.345.678")
    ensures !DniShaped("")
  {
    assert !IsDigit("12.345.678"[2]);
  }

  /** `validate`: the first failing check, in order, or `None` when all pass. */
  function Validate(f: Form): (r: Option<string>)
    ensures Utf16Length(f.password) < MIN_PASSWORD ==> r == Some(PASSWORD_SHORT)
    ensures Utf16Length(f.password) >= MIN_PASSWORD && f.password != f.repeatPassword ==> r == Some(PASSWORD_MISMATCH)
    ensures Utf16Length(f.password) >= MIN_PASSWORD && f.password == f.repeatPassword && !EmailShaped(f.email) ==>
      r == Some(EMAIL_INVALID)
    ensures (Utf16Length(f.password) >= MIN_PASSWORD && f.password == f.repeatPassword && EmailShaped(f.email) &&
             !DniShaped(f.dni)) ==> r == Some(DNI_NOT_DIGITS)
    ensures r.None? <==>
      Utf16Length(f.password) >= MIN_PASSWORD && f.password == f.repeatPassword && EmailShaped(f.email) && DniShaped(f.dni)
  {
    if Utf16Length(f.password) < MIN_PASSWORD then Some(PASSWORD_SHORT)
    else if f.password != f.repeatPassword then Some(PASSWORD_MISMATCH)
    else if !EmailShaped(f.email) then Some(EMAIL_INVALID)
    else if !DniShaped(f.dni) then Some(DNI_NOT_DIGITS)
    else None
  }

  /** The empty form fails on the password length before any other check. */
  lemma EmptyFormFailsOnPassword()
    ensures Validate(EMPTY_FORM) == Some(PASSWORD_SHORT)
  {
  }

  /** Editing a field the checks do not read never changes the verdict. */
  lemma ValidateIgnoresOtherFields(f: Form, field: FieldName, value: string)
    requires field !in {Password, RepeatPassword, Email, Dni}
    ensures Validate(With(f, field, value)) == Validate(f)
  {
    var g := With(f, field, value);
    assert g.password == f.password && g.repeatPassword == f.repeatPassword;
    assert g.email == f.email && g.dni == f.dni;
  }

  /** How `handleSubmit` ended. */
  datatype Outcome =
    | Invalid            // a validation message was shown; `register` was not called
    | Failed             // `register` reported failure; its error values are shown
    | Navigated(to: string)
    | Threw              // reading the result threw; the error list was left as it was

  /** The state of the registration page. */
  class RegisterPage {
    var form: Form
    var errors: seq<Json>

    constructor()
      ensures form == EMPTY_FORM && errors == []
    {
      form := EMPTY_FORM;
      errors := [];
    }

    /** `handleChange` for the input named `field`. */
    method Change(field: FieldName, value: string)
      modifies this`form
      ensures form == With(old(form), field, value)
      ensures Read(form, field) == value
    {
      form := With(form, field, value);
    }

    /**
     * `handleSubmit`. `result` is what the store's `register(form)` resolves to
     * (`None` for `undefined`); it is read only when validation passes.
     */
    method Submit(result: Option<Json>) returns (outcome: Outcome)
      modifies this`errors
      ensures outcome.Invalid? <==> Validate(form).Some?
      ensures outcome.Invalid? ==> errors == [JStr(Validate(form).value)]
      ensures outcome == Navigated("/") <==> Validate(form).None? && Truthy(Get(result, "success"))
      ensures outcome.Navigated? ==> outcome.to == "/" && errors == []
      ensures outcome.Failed? <==>
        Validate(form).None? && !Truthy(Get(result, "success")) && !Nullish(result) && !Nullish(Get(result, "error"))
      ensures outcome.Failed? ==> Some(errors) == ObjectValues(Get(result, "error"))
      ensures outcome.Threw? <==>
        Validate(form).None? && !Truthy(Get(result, "success")) && (Nullish(result) || Nullish(Get(result, "error")))
      ensures outcome.Threw? ==> errors == old(errors)
    {
      var validationError := Validate(form);
      if validationError.Some? {
        errors := [JStr(validationError.value)];
        return Invalid;
      }
      if Nullish(result) {
        return Threw;
      }
      if !Truthy(Get(result, "success")) {
        var values := ObjectValues(Get(result, "error"));
        if values.None? {
          return Threw;
        }
        errors := values.value;
        return Failed;
      }
      errors := [];
      return Navigated("/");
    }
  }
}
