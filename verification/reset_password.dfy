/**
 * The password-reset page (src/pages/ResetPassword.tsx): the token from the
 * query string, three ordered checks, a body that may be empty, JSON or plain
 * text, and the message the page shows.
 */
module ResetPassword {
  import opened Wrappers
  import opened Js
  import opened Http

  const TOKEN_MISSING: string := "Token no proporcionado"
  const PASSWORD_SHORT: string := "La contraseña debe tener al menos 6 caracteres"
  const PASSWORD_MISMATCH: string := "Las contraseñas no coinciden"
  const RESET_DONE: string := "Contraseña restablecida correctamente. Redirigiendo al login..."
  const RESET_FAILED: string := "Error al intentar restablecer la contraseña"
  const MIN_PASSWORD: nat := 6

  /** `searchParams.get('token') ?? ''`. */
  function TokenOf(param: Option<string>): (t: string)
    ensures param.None? ==> t == ""
    ensures param.Some? ==> t == param.value
  {
    match param
    case None => ""
    case Some(v) => v
  }

  /** The checks of `handleSubmit`, first failure wins. */
  function Check(token: string, newPassword: string, confirm: string): (r: Option<string>)
    ensures token == "" ==> r == Some(TOKEN_MISSING)
    ensures token != "" && Utf16Length(newPassword) < MIN_PASSWORD ==> r == Some(PASSWORD_SHORT)
    ensures token != "" && Utf16Length(newPassword) >= MIN_PASSWORD && newPassword != confirm ==> r == Some(PASSWORD_MISMATCH)
    ensures r.None? <==> token != "" && Utf16Length(newPassword) >= MIN_PASSWORD && newPassword == confirm
  {
    if token == "" then Some(TOKEN_MISSING)
    else if newPassword == "" || Utf16Length(newPassword) < MIN_PASSWORD then Some(PASSWORD_SHORT)
    else if newPassword != confirm then Some(PASSWORD_MISMATCH)
    else None
  }

  /** The `!newPassword` test adds nothing to the length test: the empty password is already too short. */
  lemma EmptyPasswordTestIsRedundant(p: string)
    ensures (p == "" || Utf16Length(p) < MIN_PASSWORD) <==> Utf16Length(p) < MIN_PASSWORD
  {
  }

  /** A password of three astral-plane characters is long enough: each counts as two UTF-16 units, six in all. */
  lemma AstralCharactersCountTwice()
    ensures Check("t", "\U{1F600}\U{1F600}\U{1F600}", "\U{1F600}\U{1F600}\U{1F600}").None?
  {
    assert Utf16Length("\U{1F600}\U{1F600}\U{1F600}") == 6;
  }

  /** `data?.message ?? String(data ?? statusText)`; the result is shown as it is. */
  function ErrorMessage(data: Json, statusText: string): (m: Json)
    ensures m != JNull
  {
    FirstPresent([Get(Some(data), "message")], JStr(if data == JNull then statusText else Display(data)))
  }

  /**
   * The message for each kind of failing body: the status text for an empty
   * body, the text itself when it is not JSON, `message` when the object has
   * one, "[object Object]" for an object without it, and `String()` of any
   * other JSON value.
   */
  lemma ErrorMessageCases(text: string, parsed: Result<Json, string>, statusText: string, ms: seq<Member>)
    ensures text == "" ==> ErrorMessage(TextBody(text, parsed), statusText) == JStr(statusText)
    ensures text != "" && parsed.Err? ==> ErrorMessage(TextBody(text, parsed), statusText) == JStr(text)
    ensures !Nullish(Field(ms, "message")) ==> ErrorMessage(JObj(ms), statusText) == Field(ms, "message").value
    ensures Nullish(Field(ms, "message")) ==> ErrorMessage(JObj(ms), statusText) == JStr("[object Object]")
    ensures text != "" && parsed.Ok? && parsed.value != JNull && !parsed.value.JObj? ==>
      ErrorMessage(TextBody(text, parsed), statusText) == JStr(Display(parsed.value))
  {
  }

  /** The body of the reset request. */
  datatype ResetRequest = ResetRequest(token: string, newPassword: string)

  /** The state of the password-reset page. */
  class ResetPasswordPage {
    const token: string
    var newPassword: string
    var confirm: string
    var loading: bool
    var message: Option<Json>

    /** The page for a URL whose `token` query parameter is `param`. */
    constructor(param: Option<string>)
      ensures token == TokenOf(param)
      ensures newPassword == "" && confirm == "" && !loading && message.None?
    {
      token := TokenOf(param);
      newPassword := "";
      confirm := "";
      loading := false;
      message := None;
    }

    method EditPassword(text: string)
      modifies this`newPassword
      ensures newPassword == text
    {
      newPassword := text;
    }

    method EditConfirm(text: string)
      modifies this`confirm
      ensures confirm == text
    {
      confirm := text;
    }

    /**
     * `handleSubmit`. It returns the request it sends (`None` when a check stops
     * it) and whether it scheduled the redirect to /login.
     */
    method Submit(reply: Reply) returns (request: Option<ResetRequest>, redirect: bool)
      modifies this`loading, this`message
      ensures request.None? <==> Check(token, newPassword, confirm).Some?
      ensures request.None? ==>
        (message == Some(JStr(Check(token, newPassword, confirm).value)) && loading == old(loading) && !redirect)
      ensures request.Some? ==> request.value == ResetRequest(token, newPassword) && !loading
      ensures redirect <==> request.Some? && reply.Responded? && reply.ok
      ensures redirect ==> message == Some(JStr(RESET_DONE))
      ensures request.Some? && reply.Rejected? ==> message == Some(JStr(MessageOr(reply.message, RESET_FAILED)))
      ensures request.Some? && reply.Responded? && !reply.ok ==>
        message == Some(ErrorMessage(TextBody(reply.text, reply.parsed), reply.statusText))
    {
      message := None;
      redirect := false;
      var failed := Check(token, newPassword, confirm);
      if failed.Some? {
        message := Some(JStr(failed.value));
        return None, false;
      }

      loading := true;
      request := Some(ResetRequest(token, newPassword));
      match reply {
        case Rejected(m) =>
          message := Some(JStr(MessageOr(m, RESET_FAILED)));
        case Responded(ok, statusText, text, parsed, _) =>
          var data := TextBody(text, parsed);
          if !ok {
            message := Some(ErrorMessage(data, statusText));
          } else {
            message := Some(JStr(RESET_DONE));
            redirect := true;
          }
      }
      loading := false;
    }
  }
}
