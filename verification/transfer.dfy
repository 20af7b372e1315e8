/**
 * The transfer form (src/pages/Transfer.tsx): cleaning of the amount input,
 * the ordered list of validation errors, the request payload, the message
 * chain of a rejected transfer, the form reset on success, and the
 * "$0,00" literal of the currency formatter.
 */
module Transfer {
  import opened Wrappers
  import opened Js
  import opened Http

  const ALIAS_REQUIRED: string := "Por favor ingrese el alias o el CVU de la cuenta destino"
  const AMOUNT_REQUIRED: string := "Ingrese un monto mayor a 0"
  const TRANSFER_FAILED: string := "Error inesperado al realizar la transferencia"
  const SUCCESS_PREFIX: string := "Transferencia realizada a "
  const ZERO_CURRENCY: string := "$0,00"

  // ---------------------------------------------------------------------------
  // Amount input
  // ---------------------------------------------------------------------------

  /** The characters the amount input keeps. */
  predicate IsAmountChar(c: char) {
    IsDigit(c) || c == '.'
  }

  predicate AllAmountChars(s: string) {
    forall i :: 0 <= i < |s| ==> IsAmountChar(s[i])
  }

  /** `val.replace(/[^0-9.]/g, '')`. */
  function StripAmount(s: string): (r: string)
    ensures AllAmountChars(r) && |r| <= |s|
  {
    if s == [] then []
    else (if IsAmountChar(s[0]) then [s[0]] else []) + StripAmount(s[1..])
  }

  /** Stripping works piecewise. */
  lemma {:induction false} StripAmountConcat(a: string, b: string)
    ensures StripAmount(a + b) == StripAmount(a) + StripAmount(b)
  {
    if a == [] {
      assert a + b == b;
    } else {
      var h := if IsAmountChar(a[0]) then [a[0]] else [];
      assert (a + b)[0] == a[0];
      assert (a + b)[1..] == a[1..] + b;
      StripAmountConcat(a[1..], b);
      assert StripAmount(a + b) == h + (StripAmount(a[1..]) + StripAmount(b));
      assert StripAmount(a) == h + StripAmount(a[1..]);
    }
  }

  /** Text made only of digits and dots is kept as it is; so stripping twice is stripping once. */
  lemma {:induction false} StripAmountKeepsAmountText(s: string)
    requires AllAmountChars(s)
    ensures StripAmount(s) == s
  {
    if s != [] {
      StripAmountKeepsAmountText(s[1..]);
    }
  }

  /**
   * `parseFloat` on a string of digits and dots: the digits before the first dot
   * and the digits right after it, as an exact decimal; `None` (NaN) when both
   * are empty. Rounding to a binary64 number is not modelled.
   */
  function ParseDecimal(s: string): (r: Option<real>)
    requires AllAmountChars(s)
    ensures r.Some? ==> r.value >= 0.0
    ensures r.None? <==> s == [] || (s[0] == '.' && (|s| == 1 || !IsDigit(s[1])))
  {
    var whole := LeadingDigits(s);
    var rest := s[|whole|..];
    var frac := if rest != [] && rest[0] == '.' then LeadingDigits(rest[1..]) else "";
    if whole == [] && frac == [] then None
    else Some(DecimalValue(whole, frac))
  }

  /** The amount `handleAmountChange` stores for an input text: NaN becomes 0. */
  function AmountOf(input: string): (a: real)
    ensures a >= 0.0
  {
    match ParseDecimal(StripAmount(input))
    case None => 0.0
    case Some(v) => v
  }

  /** Characters other than digits and dots vanish entirely. */
  lemma {:induction false} StripAmountDropsOthers(s: string)
    requires forall i :: 0 <= i < |s| ==> !IsAmountChar(s[i])
    ensures StripAmount(s) == []
  {
    if s != [] {
      StripAmountDropsOthers(s[1..]);
    }
  }

  /** Without digits, only dots survive the cleaning. */
  lemma {:induction false} StripAmountWithoutDigits(s: string)
    requires forall i :: 0 <= i < |s| ==> !IsDigit(s[i])
    ensures forall i :: 0 <= i < |StripAmount(s)| ==> StripAmount(s)[i] == '.'
  {
    if s != [] {
      StripAmountWithoutDigits(s[1..]);
    }
  }

  /** Letters, commas, signs and any other character typed anywhere do not change the amount. */
  lemma AmountIgnoresOtherChars(a: string, junk: string, b: string)
    requires forall i :: 0 <= i < |junk| ==> !IsAmountChar(junk[i])
    ensures AmountOf(a + junk + b) == AmountOf(a + b)
  {
    StripAmountConcat(a + junk, b);
    StripAmountConcat(a, junk);
    StripAmountDropsOthers(junk);
    assert StripAmount(a) + [] == StripAmount(a);
    StripAmountConcat(a, b);
  }

  /** A whole number typed as digits is stored as its value. */
  lemma AmountOfWholeNumber(w: string)
    requires AllDigits(w) && w != []
    ensures AmountOf(w) == DigitsValue(w) as real
  {
    StripAmountKeepsAmountText(w);
    LeadingDigitsStopAtNonDigit(w, []);
    assert w + [] == w;
  }

  /** `parseFloat` reads digits, a dot and digits as that decimal, up to a second dot. */
  lemma ParseDecimalStopsAtSecondDot(w: string, f: string, tail: string)
    requires AllDigits(w) && AllDigits(f) && (w != [] || f != [])
    requires AllAmountChars(w + ("." + f + tail)) && (tail == [] || tail[0] == '.')
    ensures ParseDecimal(w + ("." + f + tail)) == Some(DecimalValue(w, f))
  {
    var after := "." + f + tail;
    var s := w + after;
    LeadingDigitsStopAtNonDigit(w, after);
    assert s[|w|..] == after;
    assert after[1..] == f + tail;
    LeadingDigitsStopAtNonDigit(f, tail);
  }

  /**
   * Digits, a dot and digits are stored as that decimal, and parsing stops at
   * a second dot: whatever follows it is ignored.
   */
  lemma AmountOfDecimal(w: string, f: string, tail: string)
    requires AllDigits(w) && AllDigits(f) && (w != [] || f != [])
    requires AllAmountChars(tail) && (tail == [] || tail[0] == '.')
    ensures AmountOf(w + "." + f + tail) == DecimalValue(w, f)
  {
    var s := w + ("." + f + tail);
    assert w + "." + f + tail == s;
    assert forall i :: 0 <= i < |s| ==> IsAmountChar(s[i]) by {
      assert forall i :: 0 <= i < |w| ==> s[i] == w[i];
      assert s[|w|] == '.';
      assert forall i :: 0 <= i < |f| ==> s[|w| + 1 + i] == f[i];
      assert forall i :: 0 <= i < |tail| ==> s[|w| + 1 + |f| + i] == tail[i];
    }
    StripAmountKeepsAmountText(s);
    ParseDecimalStopsAtSecondDot(w, f, tail);
  }

  /** Text without any digit is stored as 0. */
  lemma AmountWithoutDigitsIsZero(input: string)
    requires forall i :: 0 <= i < |input| ==> !IsDigit(input[i])
    ensures AmountOf(input) == 0.0
  {
    StripAmountWithoutDigits(input);
  }

  /** Whatever is typed, the stored amount is never negative, so `amount <= 0` only ever catches 0. */
  lemma StoredAmountIsNotNegative(input: string)
    ensures AmountOf(input) >= 0.0
    ensures AmountOf(input) <= 0.0 <==> AmountOf(input) == 0.0
  {
  }

  // ---------------------------------------------------------------------------
  // Currency display
  // ---------------------------------------------------------------------------

  /**
   * `formatCurrency`: NaN and zero give the literal "$0,00"; any other amount is
   * "$" followed by its es-AR rendering with two decimals, which the
   * internationalisation library supplies as `grouped`.
   */
  function FormatCurrency(v: Number, grouped: string): (r: string)
    ensures v.NaN? ==> r == ZERO_CURRENCY
    ensures v.Finite? && v.value == 0.0 ==> r == ZERO_CURRENCY
    ensures v.Finite? && v.value != 0.0 ==> r == "$" + grouped
  {
    if v.NaN? || v.value == 0.0 then ZERO_CURRENCY else "$" + grouped
  }

  // ---------------------------------------------------------------------------
  // Submission
  // ---------------------------------------------------------------------------

  /** The validation errors of a submission, in the order the checks run. */
  function Validate(alias: string, amount: real): (errs: seq<string>)
    ensures |errs| <= 2
  {
    (if Trim(alias) == "" then [ALIAS_REQUIRED] else [])
      + (if amount == 0.0 || amount <= 0.0 then [AMOUNT_REQUIRED] else [])
  }

  /**
   * Each message appears exactly when its check fails, nothing else appears,
   * and when both fail the alias message comes first.
   */
  lemma ValidateReports(alias: string, amount: real)
    ensures ALIAS_REQUIRED in Validate(alias, amount) <==> Trim(alias) == ""
    ensures AMOUNT_REQUIRED in Validate(alias, amount) <==> amount <= 0.0
    ensures forall e :: e in Validate(alias, amount) ==> e == ALIAS_REQUIRED || e == AMOUNT_REQUIRED
    ensures |Validate(alias, amount)| == 2 ==> Validate(alias, amount) == [ALIAS_REQUIRED, AMOUNT_REQUIRED]
  {
    assert |ALIAS_REQUIRED| != |AMOUNT_REQUIRED|;
    var blank := Trim(alias) == "";
    var low := amount <= 0.0;
    var errs := Validate(alias, amount);
    if blank && low {
      assert errs == [ALIAS_REQUIRED, AMOUNT_REQUIRED];
      assert ALIAS_REQUIRED == errs[0] && AMOUNT_REQUIRED == errs[1];
    } else if blank {
      assert errs == [ALIAS_REQUIRED];
      assert ALIAS_REQUIRED == errs[0] && AMOUNT_REQUIRED !in errs;
    } else if low {
      assert errs == [AMOUNT_REQUIRED];
      assert AMOUNT_REQUIRED == errs[0] && ALIAS_REQUIRED !in errs;
    } else {
      assert errs == [];
    }
  }

  /** A blank alias counts as empty, and both errors then appear, the alias one first. */
  lemma ValidateBlankAliasAndZero()
    ensures Validate("  ", 0.0) == [ALIAS_REQUIRED, AMOUNT_REQUIRED]
  {
    TrimEmptyIff("  ");
  }

  /** A submission passes exactly when the alias has a non-blank character and the amount is positive. */
  lemma ValidatePassesIff(alias: string, amount: real)
    ensures Validate(alias, amount) == [] <==> !AllSpace(alias) && amount > 0.0
  {
    ValidateReports(alias, amount);
    TrimEmptyIff(alias);
  }

  /** The body of the transfer request. */
  datatype Payload = Payload(accountDestination: string, amount: real, description: string)

  /** The chain of a rejected transfer, in order. */
  function ErrorCandidates(data: Json): seq<Option<Json>> {
    var d := Some(data);
    [Get(Get(d, "details"), "error"), Get(Get(d, "details"), "message"), Get(d, "error"), Get(d, "message")]
  }

  /**
   * `details.error ?? details.message ?? error ?? message ?? JSON.stringify(data)`,
   * as a string: it shows one of the four fields, or the serialised body.
   */
  function ErrorMessage(data: Json): (m: string)
    ensures m == Stringify(data) ||
      exists i :: 0 <= i < 4 && ErrorCandidates(data)[i].Some? && m == Display(ErrorCandidates(data)[i].value)
  {
    Display(FirstPresent(ErrorCandidates(data), JStr(Stringify(data))))
  }

  /** The first candidate that is neither null nor missing gives the message. */
  lemma ErrorMessagePicksFirstPresent(data: Json, i: nat)
    requires i < 4 && !Nullish(ErrorCandidates(data)[i])
    requires forall j :: 0 <= j < i ==> Nullish(ErrorCandidates(data)[j])
    ensures ErrorMessage(data) == Display(ErrorCandidates(data)[i].value)
  {
  }

  /** With none of the four fields, the message is the serialised body. */
  lemma ErrorMessageFallsBackToJson(data: Json)
    requires forall j :: 0 <= j < 4 ==> Nullish(ErrorCandidates(data)[j])
    ensures ErrorMessage(data) == Stringify(data)
    ensures ErrorMessage(data) != ""
  {
  }

  /** `{details: {error: "X"}}` gives "X" and `{message: "Y"}` gives "Y". */
  lemma ErrorMessageExamples(x: string, y: string)
    ensures ErrorMessage(JObj([Member("details", JObj([Member("error", JStr(x))]))])) == x
    ensures ErrorMessage(JObj([Member("message", JStr(y))])) == y
  {
    var a := JObj([Member("details", JObj([Member("error", JStr(x))]))]);
    ErrorMessagePicksFirstPresent(a, 0);
    var ms := [Member("message", JStr(y))];
    var b := JObj(ms);
    FieldSpec(ms, "details");
    FieldSpec(ms, "error");
    assert ms[0].key != "details" && ms[0].key != "error";
    ErrorMessagePicksFirstPresent(b, 3);
  }

  /** The confirmation text of `handleSubmit`. */
  function SuccessMessage(alias: string, amount: real, grouped: string): string {
    SUCCESS_PREFIX + alias + " por " + FormatCurrency(Finite(amount), grouped)
  }

  /**
   * The confirmation text is the prefix, the alias as typed (not trimmed),
   * " por " and the formatted amount, one after the other and nothing else.
   */
  lemma SuccessMessageText(alias: string, amount: real, grouped: string)
    ensures var m := SuccessMessage(alias, amount, grouped);
      var a := |SUCCESS_PREFIX|; var c := FormatCurrency(Finite(amount), grouped);
      |m| == a + |alias| + 5 + |c| &&
      OccursAt(m, SUCCESS_PREFIX, 0) && OccursAt(m, alias, a) &&
      OccursAt(m, " por ", a + |alias|) && OccursAt(m, c, a + |alias| + 5)
  {
    var m := SuccessMessage(alias, amount, grouped);
    var a := |SUCCESS_PREFIX|;
    var c := FormatCurrency(Finite(amount), grouped);
    assert m[..a] == SUCCESS_PREFIX;
    assert m[a..a + |alias|] == alias;
    assert m[a + |alias|..a + |alias| + 5] == " por ";
    assert m[a + |alias| + 5..|m|] == c;
  }

  /** What a submission that passed validation leaves behind. */
  datatype Settled = Settled(errors: seq<string>, success: Option<string>, reset: bool)

  /**
   * The outcome of a request: `res.json()` runs before `res.ok` is looked at, so
   * a body that is not JSON is reported through the catch branch whatever the
   * status.
   */
  function Settle(reply: Reply, alias: string, amount: real, grouped: string): (s: Settled)
    ensures s.reset <==> s.success.Some?
    ensures s.success.Some? <==> s.errors == []
    ensures s.success.None? ==> |s.errors| == 1
  {
    match reply
    case Rejected(m) => Settled([MessageOr(m, TRANSFER_FAILED)], None, false)
    case Responded(ok, _, _, parsed, _) =>
      match parsed
      case Err(syntax) => Settled([syntax], None, false)
      case Ok(data) =>
        if !ok then Settled([ErrorMessage(data)], None, false)
        else Settled([], Some(SuccessMessage(alias, amount, grouped)), true)
  }

  /**
   * Only an ok response with a JSON body is a success, and it shows the
   * confirmation text; a non-ok one yields exactly its chain message; an
   * unparsable body its syntax error; a rejected fetch its message or the fallback.
   */
  lemma SettleCases(reply: Reply, alias: string, amount: real, grouped: string)
    ensures Settle(reply, alias, amount, grouped).success.Some? <==> reply.Responded? && reply.ok && reply.parsed.Ok?
    ensures reply.Responded? && !reply.ok && reply.parsed.Ok? ==>
      Settle(reply, alias, amount, grouped).errors == [ErrorMessage(reply.parsed.value)]
    ensures reply.Responded? && reply.parsed.Err? ==>
      Settle(reply, alias, amount, grouped).errors == [reply.parsed.error]
    ensures reply.Rejected? ==>
      Settle(reply, alias, amount, grouped).errors == [MessageOr(reply.message, TRANSFER_FAILED)]
    ensures Settle(reply, alias, amount, grouped).success.Some? ==>
      Settle(reply, alias, amount, grouped).success.value == SuccessMessage(alias, amount, grouped)
  {
  }

  /** The state of the transfer form. */
  class TransferForm {
    var alias: string
    var amount: real
    var description: string
    var errors: seq<string>
    var success: Option<string>
    var loading: bool

    constructor()
      ensures alias == "" && amount == 0.0 && description == ""
      ensures errors == [] && success.None? && !loading
    {
      alias := "";
      amount := 0.0;
      description := "";
      errors := [];
      success := None;
      loading := false;
    }

    /** Typing in the destination field. */
    method EditAlias(text: string)
      modifies this`alias
      ensures alias == text
    {
      alias := text;
    }

    /** Typing in the description field. */
    method EditDescription(text: string)
      modifies this`description
      ensures description == text
    {
      description := text;
    }

    /** `handleAmountChange`: keep digits and dots, parse, and store 0 for NaN. */
    method ChangeAmount(input: string)
      modifies this`amount
      ensures amount == AmountOf(input) && amount >= 0.0
    {
      var cleaned := StripAmount(input);
      var num := ParseDecimal(cleaned);
      amount := if num.None? then 0.0 else num.value;
    }

    /**
     * `handleSubmit`, run to completion against `reply`. It returns the payload
     * it sends, `None` when validation stops it before any request.
     */
    method Submit(reply: Reply, grouped: string) returns (sent: Option<Payload>)
      modifies this
      ensures sent.None? <==> Validate(old(alias), old(amount)) != []
      ensures sent.None? ==> errors == Validate(old(alias), old(amount)) && success.None?
      ensures sent.None? ==> alias == old(alias) && amount == old(amount) && description == old(description) && loading == old(loading)
      ensures sent.Some? ==> sent.value == Payload(Trim(old(alias)), old(amount), old(description)) && !loading
      ensures sent.Some? ==>
        var s := Settle(reply, old(alias), old(amount), grouped);
        errors == s.errors && success == s.success &&
        (s.reset ==> alias == "" && amount == 0.0 && description == "") &&
        (!s.reset ==> alias == old(alias) && amount == old(amount) && description == old(description))
    {
      ghost var typed := (alias, amount, description);
      errors := [];
      success := None;

      var errs := Validate(alias, amount);
      if errs != [] {
        errors := errs;
        return None;
      }

      var payload := Payload(Trim(alias), amount, description);
      assert (alias, amount, description) == typed;
      Request(reply, grouped);
      sent := Some(payload);
    }

    /** The part of `handleSubmit` after validation: the request and what its reply leaves behind. */
    method Request(reply: Reply, grouped: string)
      requires errors == [] && success.None?
      modifies this
      ensures !loading
      ensures
        var s := Settle(reply, old(alias), old(amount), grouped);
        errors == s.errors && success == s.success &&
        (s.reset ==> alias == "" && amount == 0.0 && description == "") &&
        (!s.reset ==> alias == old(alias) && amount == old(amount) && description == old(description))
    {
      loading := true;
      match reply {
        case Rejected(m) =>
          errors := [MessageOr(m, TRANSFER_FAILED)];
        case Responded(ok, _, _, parsed, _) =>
          match parsed {
            case Err(syntax) =>
              errors := [syntax];
            case Ok(data) =>
              if !ok {
                errors := [ErrorMessage(data)];
                loading := false;
                return;
              }
              success := Some(SuccessMessage(alias, amount, grouped));
              alias := "";
              amount := 0.0;
              description := "";
          }
      }
      loading := false;
    }
  }
}
