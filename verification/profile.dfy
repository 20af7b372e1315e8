/**
 * The profile page (src/pages/Profile.tsx): loading the user's details, which
 * seeds the editable alias, and saving a new alias after two inline checks.
 */
module Profile {
  import opened Wrappers
  import opened Js
  import opened Http

  const LOAD_FAILED: string := "Error al obtener datos del usuario"
  const SAVE_FAILED: string := "Error al actualizar alias"
  const ALIAS_EMPTY: string := "El alias no puede estar vacío"
  const ALIAS_SAME: string := "El alias es el mismo que ya tenes"
  const ALIAS_SAVED: string := "Alias actualizado con éxito"

  /**
   * The error list a non-ok response produces: `Object.values(data.details)`.
   * Reading `details` of a `null` body, or taking the values of a missing one,
   * throws a TypeError whose message is `typeErrorMessage`; the catch branch
   * then shows that message, or `fallback` when it is empty.
   */
  function DetailsErrors(data: Json, typeErrorMessage: string, fallback: string): (errs: seq<Json>)
    ensures data != JNull && !Nullish(Get(Some(data), "details")) ==>
      Some(errs) == ObjectValues(Get(Some(data), "details"))
    ensures data == JNull || Nullish(Get(Some(data), "details")) ==>
      errs == [JStr(MessageElse(Some(typeErrorMessage), fallback))]
  {
    if data == JNull then [JStr(MessageElse(Some(typeErrorMessage), fallback))]
    else match ObjectValues(Get(Some(data), "details"))
      case None => [JStr(MessageElse(Some(typeErrorMessage), fallback))]
      case Some(values) => values
  }

  /** An object of field messages yields those messages, in property order. */
  lemma DetailsErrorsOfFieldMessages(ms: seq<Member>, typeErrorMessage: string, fallback: string)
    ensures DetailsErrors(JObj([Member("details", JObj(ms))]), typeErrorMessage, fallback) == MemberValues(Properties(ms))
  {
    assert Get(Some(JObj([Member("details", JObj(ms))])), "details") == Some(JObj(ms));
  }

  /** When the keys are distinct field names, as the backend sends them, that is the body's order. */
  lemma DetailsErrorsOfFieldNames(ms: seq<Member>, typeErrorMessage: string, fallback: string)
    requires forall a, b :: 0 <= a < b < |ms| ==> ms[a].key != ms[b].key
    requires forall a :: 0 <= a < |ms| ==> !IsIndexKey(ms[a].key)
    ensures DetailsErrors(JObj([Member("details", JObj(ms))]), typeErrorMessage, fallback) == MemberValues(ms)
  {
    DetailsErrorsOfFieldMessages(ms, typeErrorMessage, fallback);
    PropertiesOfPlainMembers(ms);
  }

  /**
   * What the load changes; `None` in a component means "left as it was".
   * `alias` is the new value of the alias field, itself possibly `undefined`.
   */
  datatype Patch = Patch(user: Option<Json>, alias: Option<Option<Json>>, errors: Option<seq<Json>>)

  /** The effect of `getUserData` on `user`, `alias` and `errors`. */
  function LoadPatch(reply: Reply, typeErrorMessage: string): (p: Patch)
    ensures p.alias.Some? ==> p.user.Some? && p.alias.value == Get(p.user, "alias")
    ensures p.alias.Some? <==> p.errors.None?
    ensures p.errors.None? <==>
      reply.Responded? && reply.ok && reply.parsed.Ok? && reply.parsed.value != JNull
    ensures p.errors.None? ==> p.user == Some(reply.parsed.value)
    ensures reply.Rejected? ==> p == Patch(None, None, Some([JStr(MessageElse(reply.message, LOAD_FAILED))]))
    ensures reply.Responded? && reply.parsed.Err? ==>
      p == Patch(None, None, Some([JStr(MessageElse(Some(reply.parsed.error), LOAD_FAILED))]))
    ensures reply.Responded? && reply.parsed.Ok? && !reply.ok ==>
      p == Patch(None, None, Some(DetailsErrors(reply.parsed.value, typeErrorMessage, LOAD_FAILED)))
    ensures reply.Responded? && reply.ok && reply.parsed == Ok(JNull) ==>
      p == Patch(Some(JNull), None, Some([JStr(MessageElse(Some(typeErrorMessage), LOAD_FAILED))]))
  {
    var thrown := [JStr(MessageElse(Some(typeErrorMessage), LOAD_FAILED))];
    match reply
    case Rejected(m) => Patch(None, None, Some([JStr(MessageElse(m, LOAD_FAILED))]))
    case Responded(ok, _, _, parsed, _) =>
      match parsed
      case Err(syntax) => Patch(None, None, Some([JStr(MessageElse(Some(syntax), LOAD_FAILED))]))
      case Ok(data) =>
        if !ok then Patch(None, None, Some(DetailsErrors(data, typeErrorMessage, LOAD_FAILED)))
        // setUser(data) has run when reading `data.alias` of null throws
        else if data == JNull then Patch(Some(JNull), None, Some(thrown))
        else Patch(Some(data), Some(Get(Some(data), "alias")), None)
  }

  /** The outcome of the inline checks of `handleSave`. */
  datatype AliasCheck =
    | Empty               // falsy, or blank after trimming
    | NotText             // truthy but not a string: `alias.trim` throws before the try
    | Same                // equal (untrimmed) to the current user's alias
    | Accept(newAlias: string)

  /** The inline checks, in order; an accepted alias is sent trimmed. */
  function CheckAlias(alias: Option<Json>, user: Json): (c: AliasCheck)
    ensures c == Empty <==> !Truthy(alias) || (alias.value.JStr? && AllSpace(alias.value.s))
    ensures c == NotText <==> Truthy(alias) && !alias.value.JStr?
    ensures c == Same <==>
      alias.Some? && alias.value.JStr? && !AllSpace(alias.value.s) && Get(Some(user), "alias") == alias
    ensures c.Accept? <==>
      alias.Some? && alias.value.JStr? && !AllSpace(alias.value.s) && Get(Some(user), "alias") != alias
    ensures c.Accept? ==> c.newAlias == Trim(alias.value.s) && c.newAlias != ""
  {
    if !Truthy(alias) then Empty
    else if !alias.value.JStr? then NotText
    else
      var t := Trim(alias.value.s);
      TrimEmptyIff(alias.value.s);
      if t == "" then Empty
      else if Get(Some(user), "alias") == alias then Same
      else Accept(t)
  }

  /** The comparison with the current alias is made before trimming, so a padded copy of it is sent. */
  lemma PaddedCurrentAliasIsSent(current: string)
    requires current != "" && !IsSpace(current[0]) && !IsSpace(current[|current| - 1])
    ensures CheckAlias(Some(JStr(" " + current)), JObj([Member("alias", JStr(current))])) == Accept(current)
  {
    var padded := " " + current;
    var user := JObj([Member("alias", JStr(current))]);
    assert Get(Some(user), "alias") == Some(JStr(current));
    TrimSkipsLeadingSpace(' ', current);
    TrimKeepsUnpadded(current);
    assert padded == [' '] + current;
    TrimEmptyIff(padded);
    assert |padded| != |current|;
  }

  /** The errors and success message a sent request ends with. */
  datatype Feedback = Feedback(errors: seq<Json>, success: Option<string>)

  /** The try block of `handleSave` after the request. */
  function SaveFeedback(reply: Reply, typeErrorMessage: string): (f: Feedback)
    ensures f.success.Some? <==> reply.Responded? && reply.ok && reply.parsed.Ok?
    ensures f.success.Some? ==> f.success == Some(ALIAS_SAVED) && f.errors == []
    ensures reply.Rejected? ==> f == Feedback([JStr(MessageElse(reply.message, SAVE_FAILED))], None)
    ensures reply.Responded? && reply.parsed.Err? ==>
      f == Feedback([JStr(MessageElse(Some(reply.parsed.error), SAVE_FAILED))], None)
    ensures reply.Responded? && reply.parsed.Ok? && !reply.ok ==>
      f == Feedback(DetailsErrors(reply.parsed.value, typeErrorMessage, SAVE_FAILED), None)
  {
    match reply
    case Rejected(m) => Feedback([JStr(MessageElse(m, SAVE_FAILED))], None)
    case Responded(ok, _, _, parsed, _) =>
      match parsed
      case Err(syntax) => Feedback([JStr(MessageElse(Some(syntax), SAVE_FAILED))], None)
      case Ok(data) =>
        if !ok then Feedback(DetailsErrors(data, typeErrorMessage, SAVE_FAILED), None)
        else Feedback([], Some(ALIAS_SAVED))
  }

  /** The state of the profile page. */
  class ProfilePage {
    var user: Json
    var alias: Option<Json>
    var loading: bool
    var saving: bool
    var errors: seq<Json>
    var success: Option<string>

    constructor()
      ensures user == JNull && alias == Some(JStr("")) && loading && !saving
      ensures errors == [] && success.None?
    {
      user := JNull;
      alias := Some(JStr(""));
      loading := true;
      saving := false;
      errors := [];
      success := None;
    }

    /** Typing in the alias field. */
    method EditAlias(text: string)
      modifies this`alias
      ensures alias == Some(JStr(text))
    {
      alias := Some(JStr(text));
    }

    /** `getUserData`: fetch the details, store them and seed the alias field; always ends not loading. */
    method Load(reply: Reply, typeErrorMessage: string)
      modifies this`user, this`alias, this`errors, this`loading
      ensures !loading
      ensures
        var p := LoadPatch(reply, typeErrorMessage);
        user == (if p.user.Some? then p.user.value else old(user)) &&
        alias == (if p.alias.Some? then p.alias.value else old(alias)) &&
        errors == (if p.errors.Some? then p.errors.value else old(errors))
    {
      loading := true;
      match reply {
        case Rejected(m) =>
          errors := [JStr(MessageElse(m, LOAD_FAILED))];
        case Responded(ok, _, _, parsed, _) =>
          match parsed {
            case Err(syntax) =>
              errors := [JStr(MessageElse(Some(syntax), LOAD_FAILED))];
            case Ok(data) =>
              if !ok {
                errors := DetailsErrors(data, typeErrorMessage, LOAD_FAILED);
                loading := false;
                return;
              }
              user := data;
              if data == JNull {
                errors := [JStr(MessageElse(Some(typeErrorMessage), LOAD_FAILED))];
              } else {
                alias := Get(Some(data), "alias");
              }
          }
      }
      loading := false;
    }

    /**
     * `handleSave`. It returns the `newAlias` it sends, `None` when an inline
     * check stops it; `user` and the alias field are never changed.
     */
    method Save(reply: Reply, typeErrorMessage: string) returns (request: Option<string>)
      modifies this`errors, this`success, this`saving
      ensures
        var c := CheckAlias(alias, user);
        (request.Some? <==> c.Accept?) &&
        (c.Accept? ==>
           (request == Some(c.newAlias) && !saving &&
            Feedback(errors, success) == SaveFeedback(reply, typeErrorMessage))) &&
        (c == Empty ==> errors == [JStr(ALIAS_EMPTY)] && success.None? && saving == old(saving)) &&
        (c == Same ==> errors == [JStr(ALIAS_SAME)] && success.None? && saving == old(saving)) &&
        (c == NotText ==> errors == [] && success.None? && saving == old(saving))
    {
      errors := [];
      success := None;
      if !Truthy(alias) {
        errors := [JStr(ALIAS_EMPTY)];
        return None;
      }
      if !alias.value.JStr? {
        // `alias.trim` is not a function: the handler rejects here
        return None;
      }
      var text := alias.value.s;
      if Trim(text) == "" {
        errors := [JStr(ALIAS_EMPTY)];
        return None;
      }
      if alias == Get(Some(user), "alias") {
        errors := [JStr(ALIAS_SAME)];
        return None;
      }

      request := Some(Trim(text));
      Send(reply, typeErrorMessage);
    }

    /** The request itself: `saving` is raised while it runs and lowered once it settles. */
    method Send(reply: Reply, typeErrorMessage: string)
      requires errors == [] && success.None?
      modifies this`errors, this`success, this`saving
      ensures !saving && Feedback(errors, success) == SaveFeedback(reply, typeErrorMessage)
    {
      saving := true;
      match reply {
        case Rejected(m) =>
          errors := [JStr(MessageElse(m, SAVE_FAILED))];
        case Responded(ok, _, _, parsed, _) =>
          match parsed {
            case Err(syntax) =>
              errors := [JStr(MessageElse(Some(syntax), SAVE_FAILED))];
            case Ok(data) =>
              if !ok {
                errors := DetailsErrors(data, typeErrorMessage, SAVE_FAILED);
                saving := false;
                return;
              }
              success := Some(ALIAS_SAVED);
          }
      }
      saving := false;
    }
  }
}
