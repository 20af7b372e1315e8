/**
 * The paginated movement history page (src/pages/Movements.tsx): a 1-based
 * page cursor, the request for the matching 0-based backend page, the page
 * metadata defaulted field by field, the two navigation handlers and the
 * disabled state of their buttons, and the sent/received classification of a
 * movement.
 */
module Movements {
  import opened Wrappers
  import opened Js
  import opened Http

  /** Movements per backend page. */
  const PAGE_SIZE: int := 10

  /** Message shown when the request throws and the error carries no message. */
  const LOAD_FAILED: string := "Error al obtener movimientos"

  /** Pagination metadata as the page keeps it. */
  datatype PageMeta = PageMeta(page: int, size: int, totalElements: int, totalPages: int, first: bool, last: bool)

  /** The query string of the history request: `page` is 0-based. */
  datatype Query = Query(page: int, size: int)

  /** The request issued for the 1-based UI page `uiPage`. */
  function BackendQuery(uiPage: int): (q: Query)
    ensures q.page + 1 == uiPage && q.size == PAGE_SIZE
  {
    Query(uiPage - 1, PAGE_SIZE)
  }

  /** The first UI page is requested as backend page 0, and no reachable cursor asks for a negative page. */
  lemma FirstPageIsBackendZero(uiPage: int)
    requires uiPage >= 1
    ensures BackendQuery(1) == Query(0, 10)
    ensures BackendQuery(uiPage).page >= 0
  {
  }

  // ---------------------------------------------------------------------------
  // Reading the page envelope
  // ---------------------------------------------------------------------------

  /** `v ?? fallback` for a numeric field. */
  function NumberOr(v: Option<Json>, fallback: int): (n: int)
    ensures Nullish(v) ==> n == fallback
    ensures v.Some? && v.value.JNum? ==> n == v.value.n
  {
    match v
    case Some(JNum(n)) => n
    case _ => fallback
  }

  /** `v ?? fallback` for a boolean field. */
  function BoolOr(v: Option<Json>, fallback: bool): (b: bool)
    ensures Nullish(v) ==> b == fallback
    ensures v.Some? && v.value.JBool? ==> b == v.value.b
  {
    match v
    case Some(JBool(b)) => b
    case _ => fallback
  }

  /** `data.content ?? []`. */
  function ContentOf(data: Json): (items: seq<Json>)
    ensures Nullish(Get(Some(data), "content")) ==> items == []
    ensures Get(Some(data), "content").Some? && Get(Some(data), "content").value.JArr? ==>
      items == Get(Some(data), "content").value.items
  {
    match Get(Some(data), "content")
    case Some(JArr(items)) => items
    case _ => []
  }

  /**
   * The metadata built from a successful response: every field the backend sends
   * is copied as it is (`first` and `last` are never recomputed from the counts),
   * and a missing or null field takes its default.
   */
  function MetaOf(data: Json): (m: PageMeta)
    ensures m.page == NumberOr(Get(Some(data), "page"), 0)
    ensures m.size == NumberOr(Get(Some(data), "size"), PAGE_SIZE)
    ensures m.totalElements == NumberOr(Get(Some(data), "totalElements"), 0)
    ensures m.totalPages == NumberOr(Get(Some(data), "totalPages"), 1)
    ensures m.first == BoolOr(Get(Some(data), "first"), false)
    ensures m.last == BoolOr(Get(Some(data), "last"), false)
  {
    var d := Some(data);
    PageMeta(
      NumberOr(Get(d, "page"), 0),
      NumberOr(Get(d, "size"), PAGE_SIZE),
      NumberOr(Get(d, "totalElements"), 0),
      NumberOr(Get(d, "totalPages"), 1),
      BoolOr(Get(d, "first"), false),
      BoolOr(Get(d, "last"), false))
  }

  /** A body that is not an object (a text body, a number, an array) gives the defaults. */
  lemma MetaDefaults(data: Json)
    requires !data.JObj?
    ensures MetaOf(data) == PageMeta(0, 10, 0, 1, false, false)
    ensures ContentOf(data) == []
  {
  }

  /** Flags the backend sends are kept even when the counts say otherwise. */
  lemma MetaKeepsBackendFlags(data: Json)
    requires Get(Some(data), "last") == Some(JBool(true))
    requires Get(Some(data), "page") == Some(JNum(0)) && Get(Some(data), "totalPages") == Some(JNum(5))
    ensures MetaOf(data).last && MetaOf(data).page < MetaOf(data).totalPages
  {
  }

  /** The candidates of the message chain of a non-ok response, in order. */
  function ErrorCandidates(data: Json): seq<Option<Json>> {
    var d := Some(data);
    [Get(Get(d, "details"), "error"), Get(d, "error"), Get(d, "message")]
  }

  /**
   * The message of a non-ok response: `details.error ?? error ?? message ?? String(data)`,
   * as a string: it shows one of the three fields, or the body itself.
   */
  function ErrorMessage(data: Json): (m: string)
    ensures m == Display(data) ||
      exists i :: 0 <= i < 3 && ErrorCandidates(data)[i].Some? && m == Display(ErrorCandidates(data)[i].value)
  {
    Display(FirstPresent(ErrorCandidates(data), JStr(Display(data))))
  }

  /**
   * The message is the first candidate that is neither null nor missing, shown
   * as a string; an empty string stops the chain.
   */
  lemma ErrorMessagePicksFirstPresent(data: Json, i: nat)
    requires i < 3 && !Nullish(ErrorCandidates(data)[i])
    requires forall j :: 0 <= j < i ==> Nullish(ErrorCandidates(data)[j])
    ensures ErrorMessage(data) == Display(ErrorCandidates(data)[i].value)
  {
  }

  /** With none of the three fields, the message is the body itself as a string. */
  lemma ErrorMessageFallsBackToBody(data: Json)
    requires forall j :: 0 <= j < 3 ==> Nullish(ErrorCandidates(data)[j])
    ensures ErrorMessage(data) == Display(data)
  {
  }

  /** A text body (not JSON) is its own message. */
  lemma TextBodyIsMessage(text: string)
    ensures ErrorMessage(JStr(text)) == text
  {
    ErrorMessageFallsBackToBody(JStr(text));
  }

  /** What one run of the loading effect leaves behind. */
  datatype Loaded = Loaded(movements: seq<Json>, meta: Option<PageMeta>, error: Option<string>)

  /**
   * The outcome of the loading effect for one reply. A JSON content type makes
   * the body go through `res.json()`, any other through `res.text()`. Reading
   * `content` of a `null` body throws a TypeError whose text is
   * `typeErrorMessage`.
   */
  function LoadResult(reply: Reply, typeErrorMessage: string): (l: Loaded)
    ensures l.error.None? <==> l.meta.Some?
    ensures l.meta.None? ==> l.movements == []
  {
    match reply
    case Rejected(m) => Loaded([], None, Some(MessageOr(m, LOAD_FAILED)))
    case Responded(ok, _, text, parsed, isJson) =>
      var data := if isJson then parsed else Ok(JStr(text));
      match data
      case Err(syntax) => Loaded([], None, Some(syntax))
      case Ok(d) =>
        if !ok then Loaded([], None, Some(ErrorMessage(d)))
        else if d.JNull? then Loaded([], None, Some(typeErrorMessage))
        else Loaded(ContentOf(d), Some(MetaOf(d)), None)
  }

  /** Every failure empties the list and drops the metadata; only a successful response sets them. */
  lemma LoadFailuresClearPage(reply: Reply, typeErrorMessage: string)
    ensures reply.Rejected? ==> LoadResult(reply, typeErrorMessage) == Loaded([], None, Some(MessageOr(reply.message, LOAD_FAILED)))
    ensures reply.Rejected? && reply.message.None? ==> LoadResult(reply, typeErrorMessage).error == Some("Error al obtener movimientos")
    ensures reply.Responded? && !reply.ok && !reply.jsonContentType ==>
      LoadResult(reply, typeErrorMessage) == Loaded([], None, Some(reply.text))
    ensures reply.Responded? && !reply.ok && reply.jsonContentType && reply.parsed.Ok? ==>
      LoadResult(reply, typeErrorMessage) == Loaded([], None, Some(ErrorMessage(reply.parsed.value)))
    ensures reply.Responded? && reply.ok && !reply.jsonContentType ==>
      LoadResult(reply, typeErrorMessage) == Loaded([], Some(PageMeta(0, 10, 0, 1, false, false)), None)
    ensures reply.Responded? && reply.jsonContentType && reply.parsed.Err? ==>
      LoadResult(reply, typeErrorMessage) == Loaded([], None, Some(reply.parsed.error))
    ensures reply.Responded? && reply.ok && reply.jsonContentType && reply.parsed == Ok(JNull) ==>
      LoadResult(reply, typeErrorMessage) == Loaded([], None, Some(typeErrorMessage))
  {
    if reply.Responded? && !reply.jsonContentType {
      MetaDefaults(JStr(reply.text));
    }
  }

  /** An ok JSON reply with a non-null body stores its movements and its metadata, each defaulted. */
  lemma LoadSuccessStoresBody(reply: Reply, typeErrorMessage: string)
    requires reply.Responded? && reply.ok && reply.jsonContentType && reply.parsed.Ok? && reply.parsed.value != JNull
    ensures LoadResult(reply, typeErrorMessage) ==
      Loaded(ContentOf(reply.parsed.value), Some(MetaOf(reply.parsed.value)), None)
  {
  }

  // ---------------------------------------------------------------------------
  // Cursor and navigation
  // ---------------------------------------------------------------------------

  /** The cursor after `prev`: it moves back only with metadata and above page 1. */
  function PrevPage(meta: Option<PageMeta>, page: int): (p: int)
    ensures p == page - 1 <==> meta.Some? && page > 1
    ensures p == page || p == page - 1
  {
    if meta.None? then page
    else if page <= 1 then page
    else page - 1
  }

  /** The cursor after `next`: it moves on only with metadata and below `totalPages`; it does not look at `last`. */
  function NextPage(meta: Option<PageMeta>, page: int): (p: int)
    ensures p == page + 1 <==> meta.Some? && page < meta.value.totalPages
    ensures p == page || p == page + 1
  {
    if meta.None? then page
    else if page >= meta.value.totalPages then page
    else page + 1
  }

  /** "Anterior" is disabled; it is whenever `prev` would not move. */
  predicate PrevDisabled(meta: Option<PageMeta>, page: int): (b: bool)
    ensures PrevPage(meta, page) == page ==> b
  {
    meta.None? || page <= 1 || meta.value.first
  }

  /** "Siguiente" is disabled; it is whenever `next` would not move. */
  predicate NextDisabled(meta: Option<PageMeta>, page: int): (b: bool)
    ensures NextPage(meta, page) == page ==> b
  {
    meta.None? || meta.value.last || page >= meta.value.totalPages
  }

  /** Each handler either leaves the cursor alone or moves it by exactly one, and never below 1. */
  lemma StepsMoveByOne(meta: Option<PageMeta>, page: int)
    requires page >= 1
    ensures PrevPage(meta, page) == page - 1 <==> meta.Some? && page > 1
    ensures PrevPage(meta, page) != page - 1 ==> PrevPage(meta, page) == page
    ensures NextPage(meta, page) == page + 1 <==> meta.Some? && page < meta.value.totalPages
    ensures NextPage(meta, page) != page + 1 ==> NextPage(meta, page) == page
    ensures PrevPage(meta, page) >= 1 && NextPage(meta, page) >= 1
  {
  }

  /** A button that is enabled always moves the cursor. */
  lemma EnabledButtonsMove(meta: Option<PageMeta>, page: int)
    ensures !PrevDisabled(meta, page) ==> PrevPage(meta, page) == page - 1
    ensures !NextDisabled(meta, page) ==> NextPage(meta, page) == page + 1
  {
  }

  /**
   * The buttons are stricter than the handlers: with `first` or `last` set, the
   * button is disabled although the handler would still move the cursor.
   */
  lemma FlagsOnlyDisableButtons()
    ensures var m := Some(PageMeta(0, 10, 30, 3, false, true));
      NextDisabled(m, 1) && NextPage(m, 1) == 2
    ensures var m := Some(PageMeta(2, 10, 30, 3, true, false));
      PrevDisabled(m, 3) && PrevPage(m, 3) == 2
  {
  }

  /** A click on one of the two buttons. */
  datatype Click = Prev | Next

  /** The cursor after a series of clicks with the same metadata. */
  function Walk(meta: Option<PageMeta>, page: int, clicks: seq<Click>): int
    decreases |clicks|
  {
    if clicks == [] then page
    else
      var p := if clicks[0] == Prev then PrevPage(meta, page) else NextPage(meta, page);
      Walk(meta, p, clicks[1..])
  }

  /**
   * Whatever the clicks, the cursor stays at 1 or above and never passes the
   * larger of where it started and `totalPages`; without metadata it does not move.
   */
  lemma {:induction false} WalkStaysInRange(meta: Option<PageMeta>, page: int, clicks: seq<Click>)
    requires page >= 1
    decreases |clicks|
    ensures Walk(meta, page, clicks) >= 1
    ensures meta.None? ==> Walk(meta, page, clicks) == page
    ensures meta.Some? ==> Walk(meta, page, clicks) <= if page >= meta.value.totalPages then page else meta.value.totalPages
  {
    if clicks != [] {
      var p := if clicks[0] == Prev then PrevPage(meta, page) else NextPage(meta, page);
      WalkStaysInRange(meta, p, clicks[1..]);
    }
  }

  // ---------------------------------------------------------------------------
  // Classification of a movement
  // ---------------------------------------------------------------------------

  /** `m.type?.toLowerCase().includes('sent') || m.type?.toLowerCase().includes('transfer_sent')`. */
  predicate IsSent(m: Json): (b: bool)
    ensures b ==> Get(Some(m), "type").Some? && Get(Some(m), "type").value.JStr?
  {
    match Get(Some(m), "type")
    case Some(JStr(t)) => Contains(ToLower(t), "sent") || Contains(ToLower(t), "transfer_sent")
    case _ => false
  }

  /** The second test is redundant: a movement is sent exactly when its lower-cased type contains "sent". */
  lemma SentIffTypeContainsSent(m: Json)
    ensures IsSent(m) <==> exists t :: Get(Some(m), "type") == Some(JStr(t)) && Contains(ToLower(t), "sent")
  {
    match Get(Some(m), "type")
    case Some(JStr(t)) =>
      if Contains(ToLower(t), "transfer_sent") {
        assert OccursAt("transfer_sent", "sent", 9);
        ContainsTransitive(ToLower(t), "transfer_sent", "sent");
      }
    case _ =>
  }

  /** How one movement is shown in the list. */
  datatype Line = Line(title: string, name: string, sign: string, amount: string)

  /**
   * Rendering an element of `content` throws: reading `type` of a `null`
   * element, calling `toLowerCase` on a `type` that is present but not a
   * string, or calling `toFixed` on an `amount` that is not a number.
   */
  predicate RenderThrows(m: Json) {
    m == JNull ||
    (!Nullish(Get(Some(m), "type")) && !Get(Some(m), "type").value.JStr?) ||
    !(Get(Some(m), "amount").Some? && Get(Some(m), "amount").value.JNum?)
  }

  /** `n.toFixed(2)` for an integer `n`: its decimal text and two zero decimals. */
  function ToFixed2(n: int): string {
    IntToString(n) + ".00"
  }

  /**
   * The line a movement shows, `None` when rendering it throws. Sent movements
   * name the destination and carry '- '; all others name the origin and carry
   * '+ '; the amount follows a '$'.
   */
  function LineOf(m: Json): (l: Option<Line>)
    ensures l.None? <==> RenderThrows(m)
    ensures m == JNull ==> l.None?
    ensures l.Some? ==> (IsSent(m) <==> l.value.sign == "- ")
    ensures l.Some? ==> (IsSent(m) <==> l.value.title == "Pago a")
    ensures l.Some? && IsSent(m) ==>
      l.value.name == ToStr(Get(Some(m), "DestinationName")) + " " + ToStr(Get(Some(m), "DestinationLastname"))
    ensures l.Some? && !IsSent(m) ==>
      l.value.name == ToStr(Get(Some(m), "OriginName")) + " " + ToStr(Get(Some(m), "OriginLastname"))
    ensures l.Some? ==> l.value.amount == "$" + ToFixed2(Get(Some(m), "amount").value.n)
  {
    var d := Some(m);
    if RenderThrows(m) then None
    else
      var amount := "$" + ToFixed2(Get(d, "amount").value.n);
      if IsSent(m) then
        Some(Line("Pago a", ToStr(Get(d, "DestinationName")) + " " + ToStr(Get(d, "DestinationLastname")), "- ", amount))
      else
        Some(Line("Transferencia de", ToStr(Get(d, "OriginName")) + " " + ToStr(Get(d, "OriginLastname")), "+ ", amount))
  }

  /** A movement without a type (a deposit, say) but with a numeric amount is shown as received. */
  lemma UntypedIsReceived(m: Json)
    requires Nullish(Get(Some(m), "type"))
    requires Get(Some(m), "amount").Some? && Get(Some(m), "amount").value.JNum?
    ensures LineOf(m).Some? && LineOf(m).value.sign == "+ " && LineOf(m).value.title == "Transferencia de"
  {
  }

  // ---------------------------------------------------------------------------
  // The page state
  // ---------------------------------------------------------------------------

  /** The state of the movements page. */
  class MovementsPage {
    var movements: seq<Json>
    var page: int
    var meta: Option<PageMeta>
    var loading: bool
    var error: Option<string>

    /** The cursor is 1-based. */
    ghost predicate Valid()
      reads this
    {
      page >= 1
    }

    constructor()
      ensures Valid()
      ensures movements == [] && page == 1 && meta.None? && !loading && error.None?
    {
      movements := [];
      page := 1;
      meta := None;
      loading := false;
      error := None;
    }

    /**
     * The effect that runs whenever `page` changes: it requests the matching
     * backend page and replaces the list, the metadata and the error.
     */
    method Load(reply: Reply, typeErrorMessage: string) returns (q: Query)
      requires Valid()
      modifies this`movements, this`meta, this`loading, this`error
      ensures Valid() && page == old(page)
      ensures q == BackendQuery(page) && q.page >= 0
      ensures !loading
      ensures Loaded(movements, meta, error) == LoadResult(reply, typeErrorMessage)
    {
      loading := true;
      error := None;
      q := Query(page - 1, PAGE_SIZE);
      match reply {
        case Rejected(m) =>
          error := Some(MessageOr(m, LOAD_FAILED));
          movements := [];
          meta := None;
        case Responded(ok, _, text, parsed, isJson) =>
          var data := if isJson then parsed else Ok(JStr(text));
          if data.Err? {
            error := Some(data.error);
            movements := [];
            meta := None;
          } else if !ok {
            error := Some(ErrorMessage(data.value));
            movements := [];
            meta := None;
            loading := false;
          } else if data.value.JNull? {
            error := Some(typeErrorMessage);
            movements := [];
            meta := None;
          } else {
            movements := ContentOf(data.value);
            meta := Some(MetaOf(data.value));
          }
      }
      loading := false;
    }

    /** `prev`. */
    method Prev()
      requires Valid()
      modifies this`page
      ensures Valid()
      ensures page == PrevPage(meta, old(page))
    {
      if meta.None? {
        return;
      }
      if page <= 1 {
        return;
      }
      page := page - 1;
    }

    /** `next`. */
    method Next()
      requires Valid()
      modifies this`page
      ensures Valid()
      ensures page == NextPage(meta, old(page))
    {
      if meta.None? {
        return;
      }
      if page >= meta.value.totalPages {
        return;
      }
      page := page + 1;
    }
  }
}
