/**
 * The transaction-detail page (src/pages/TransactionDetails.tsx): it fetches
 * one transaction by the id in the route, decodes a body that may be empty,
 * JSON or plain text, picks an error message, and maps the backend's record
 * onto the receipt shape of src/components/Receipt.tsx with a fallback for
 * every field.
 */
module TransactionDetails {
  import opened Wrappers
  import opened Js
  import opened Http

  const DETAILS_FAILED: string := "Error al obtener detalle de la transacción"
  const PLACEHOLDER: string := "---"

  /**
   * The receipt the page shows. The `Json` fields hold whatever the backend
   * sent (the declared types are not enforced at run time); `amount` has gone
   * through `Number()`.
   */
  datatype Receipt = Receipt(
    operationNumber: Json,
    originCvu: Json, originName: Json, originLastname: Json,
    destinationCvu: Json, destinationName: Json, destinationLastname: Json,
    amount: Number, date: Json, description: Json)

  /** `data ?? {}`. */
  function Backend(data: Json): (b: Json)
    ensures data == JNull ==> b == JObj([])
    ensures data != JNull ==> b == data
  {
    if data == JNull then JObj([]) else data
  }

  /** `backend.key ?? otherwise`: the key's value unless it is missing or `null`. */
  function Read(backend: Json, key: string, otherwise: Json): (r: Json)
    ensures !Nullish(Get(Some(backend), key)) ==> r == Get(Some(backend), key).value
    ensures Nullish(Get(Some(backend), key)) ==> r == otherwise
  {
    Coalesce(Get(Some(backend), key), Some(otherwise)).value
  }

  /** With a fallback that is not `null`, no chain of reads gives `null`. */
  lemma ReadNeverNull(backend: Json, key: string, otherwise: Json)
    requires otherwise != JNull
    ensures Read(backend, key, otherwise) != JNull
  {
  }

  /** On an object body, a read whose fallback is itself a chain of reads extends that chain by one key. */
  lemma ReadChain(ms: seq<Member>, key: string, c: seq<Option<Json>>, last: Json)
    ensures Read(JObj(ms), key, FirstPresent(c, last)) == FirstPresent([Field(ms, key)] + c, last)
  {
    assert ([Field(ms, key)] + c)[1..] == c;
  }

  /** A body that is not an object answers every read with its fallback. */
  lemma NonObjectBackendIsEmpty(data: Json)
    requires !data.JObj?
    ensures forall key, otherwise :: Read(Backend(data), key, otherwise) == otherwise
  {
    forall key, otherwise ensures Read(Backend(data), key, otherwise) == otherwise {
      assert Get(Some(Backend(data)), key).None?;
    }
  }

  /**
   * The receipt built from a successful response. `transactionId` is the route
   * parameter and `now` the current time as ISO text; both are inputs here.
   */
  function BuildReceipt(data: Json, transactionId: string, now: string): (r: Receipt)
    ensures r.operationNumber != JNull && r.date != JNull && r.description != JNull
    ensures r.originCvu != JNull && r.originName != JNull && r.originLastname != JNull
    ensures r.destinationCvu != JNull && r.destinationName != JNull && r.destinationLastname != JNull
  {
    var b := Backend(data);
    var dash := JStr(PLACEHOLDER);
    Receipt(
      Read(b, "operationNumber", Read(b, "transactionId", Read(b, "operationId", JStr(transactionId)))),
      Read(b, "originCvu", Read(b, "origin_cvu", dash)),
      Read(b, "originName", Read(b, "origin_name", dash)),
      Read(b, "originLastname", Read(b, "origin_lastname", dash)),
      Read(b, "destinationCvu", Read(b, "destination_cvu", dash)),
      Read(b, "destinationName", Read(b, "destination_name", dash)),
      Read(b, "destinationLastname", Read(b, "destination_lastname", dash)),
      ToNumber(Read(b, "amount", JNum(0))),
      Read(b, "date", JStr(now)),
      Read(b, "description", JStr("")))
  }

  /** A body that is empty, plain text, an array or a scalar yields the all-fallback receipt. */
  lemma ReceiptOfNonObject(data: Json, transactionId: string, now: string)
    requires !data.JObj?
    ensures BuildReceipt(data, transactionId, now) ==
      Receipt(JStr(transactionId), JStr(PLACEHOLDER), JStr(PLACEHOLDER), JStr(PLACEHOLDER),
              JStr(PLACEHOLDER), JStr(PLACEHOLDER), JStr(PLACEHOLDER), Finite(0.0), JStr(now), JStr(""))
  {
    NonObjectBackendIsEmpty(data);
  }

  /**
   * On an object body each party field is the first present of its camel-case
   * and its snake-case name, and "---" when neither is.
   */
  lemma ReceiptPartiesOfObject(ms: seq<Member>, transactionId: string, now: string)
    ensures
      var r := BuildReceipt(JObj(ms), transactionId, now);
      var dash := JStr(PLACEHOLDER);
      r.originCvu == FirstPresent([Field(ms, "originCvu"), Field(ms, "origin_cvu")], dash) &&
      r.originName == FirstPresent([Field(ms, "originName"), Field(ms, "origin_name")], dash) &&
      r.originLastname == FirstPresent([Field(ms, "originLastname"), Field(ms, "origin_lastname")], dash) &&
      r.destinationCvu == FirstPresent([Field(ms, "destinationCvu"), Field(ms, "destination_cvu")], dash) &&
      r.destinationName == FirstPresent([Field(ms, "destinationName"), Field(ms, "destination_name")], dash) &&
      r.destinationLastname == FirstPresent([Field(ms, "destinationLastname"), Field(ms, "destination_lastname")], dash)
  {
    PartyOfObject(ms, "originCvu", "origin_cvu");
    PartyOfObject(ms, "originName", "origin_name");
    PartyOfObject(ms, "originLastname", "origin_lastname");
    PartyOfObject(ms, "destinationCvu", "destination_cvu");
    PartyOfObject(ms, "destinationName", "destination_name");
    PartyOfObject(ms, "destinationLastname", "destination_lastname");
  }

  /** One party field of an object body: the camel-case name, then the snake-case one, then "---". */
  lemma PartyOfObject(ms: seq<Member>, camel: string, snake: string)
    ensures Read(JObj(ms), camel, Read(JObj(ms), snake, JStr(PLACEHOLDER))) ==
      FirstPresent([Field(ms, camel), Field(ms, snake)], JStr(PLACEHOLDER))
  {
    ReadChain(ms, snake, [], JStr(PLACEHOLDER));
    ReadChain(ms, camel, [Field(ms, snake)], JStr(PLACEHOLDER));
  }

  /** On an object body the operation number is the first present of three names, then the route id. */
  lemma ReceiptOperationNumberOfObject(ms: seq<Member>, transactionId: string, now: string)
    ensures BuildReceipt(JObj(ms), transactionId, now).operationNumber ==
      FirstPresent([Field(ms, "operationNumber"), Field(ms, "transactionId"), Field(ms, "operationId")], JStr(transactionId))
  {
    var id := JStr(transactionId);
    assert FirstPresent([], id) == id;
    ReadChain(ms, "operationId", [], id);
    assert [Field(ms, "operationId")] + [] == [Field(ms, "operationId")];
    ReadChain(ms, "transactionId", [Field(ms, "operationId")], id);
    ReadChain(ms, "operationNumber", [Field(ms, "transactionId"), Field(ms, "operationId")], id);
  }

  /** On an object body the amount, date and description are the backend's when present, else 0, now and "". */
  lemma ReceiptDefaultsOfObject(ms: seq<Member>, transactionId: string, now: string)
    ensures
      var r := BuildReceipt(JObj(ms), transactionId, now);
      (Nullish(Field(ms, "amount")) ==> r.amount == Finite(0.0)) &&
      (!Nullish(Field(ms, "amount")) ==> r.amount == ToNumber(Field(ms, "amount").value)) &&
      (Nullish(Field(ms, "date")) ==> r.date == JStr(now)) &&
      (!Nullish(Field(ms, "date")) ==> r.date == Field(ms, "date").value) &&
      (Nullish(Field(ms, "description")) ==> r.description == JStr("")) &&
      (!Nullish(Field(ms, "description")) ==> r.description == Field(ms, "description").value)
  {
  }

  /** The operation number tries three backend names before the route parameter. */
  lemma OperationNumberFallsBackToRoute(ms: seq<Member>, transactionId: string, now: string)
    requires Nullish(Field(ms, "operationNumber")) && Nullish(Field(ms, "transactionId")) && Nullish(Field(ms, "operationId"))
    ensures BuildReceipt(JObj(ms), transactionId, now).operationNumber == JStr(transactionId)
  {
  }

  /** The chain of a non-ok response, in order. */
  function ErrorCandidates(data: Json): seq<Option<Json>> {
    var d := Some(data);
    [Get(Get(d, "details"), "error"), Get(d, "error"), Get(d, "message")]
  }

  /**
   * `details.error ?? error ?? message ?? String(data ?? statusText)`, as a
   * string: one of the three fields, or the body, or the status text for an
   * empty body.
   */
  function ErrorMessage(data: Json, statusText: string): (m: string)
    ensures data == JNull ==> m == statusText
    ensures m == (if data == JNull then statusText else Display(data)) ||
      exists i :: 0 <= i < 3 && ErrorCandidates(data)[i].Some? && m == Display(ErrorCandidates(data)[i].value)
  {
    Display(FirstPresent(ErrorCandidates(data), JStr(if data == JNull then statusText else Display(data))))
  }

  /** An empty body reports the status text; a body that is not JSON is shown as it came. */
  lemma ErrorMessageOfUndecodedBody(text: string, parsed: Result<Json, string>, statusText: string)
    ensures text == "" ==> ErrorMessage(TextBody(text, parsed), statusText) == statusText
    ensures text != "" && parsed.Err? ==> ErrorMessage(TextBody(text, parsed), statusText) == text
  {
  }

  /** The first of the three fields that is present gives the message; `details.message` is not consulted. */
  lemma ErrorMessagePicksFirstPresent(data: Json, statusText: string, i: nat)
    requires i < 3 && !Nullish(ErrorCandidates(data)[i])
    requires forall j :: 0 <= j < i ==> Nullish(ErrorCandidates(data)[j])
    ensures ErrorMessage(data, statusText) == Display(ErrorCandidates(data)[i].value)
  {
  }

  /** What one fetch ends in. */
  datatype Outcome = Shown(receipt: Receipt) | Failed(message: string)

  /** The outcome of the fetch for route id `transactionId`. */
  function Fetch(transactionId: string, reply: Reply, now: string): (o: Outcome)
    ensures o.Shown? <==> reply.Responded? && reply.ok
    ensures reply.Rejected? ==> o == Failed(MessageOr(reply.message, DETAILS_FAILED))
    ensures reply.Responded? && !reply.ok ==>
      o == Failed(ErrorMessage(TextBody(reply.text, reply.parsed), reply.statusText))
    ensures reply.Responded? && reply.ok ==>
      o.receipt == BuildReceipt(TextBody(reply.text, reply.parsed), transactionId, now)
  {
    match reply
    case Rejected(m) => Failed(MessageOr(m, DETAILS_FAILED))
    case Responded(ok, statusText, text, parsed, _) =>
      var data := TextBody(text, parsed);
      if !ok then Failed(ErrorMessage(data, statusText))
      else Shown(BuildReceipt(data, transactionId, now))
  }

  /** What the page renders. */
  datatype View = Spinner | ErrorText(message: string) | Card(receipt: Receipt) | Blank

  /** The state of the page. */
  class DetailsPage {
    var loading: bool
    var error: Option<string>
    var receipt: Option<Receipt>

    /** The page starts out loading, with no error and no receipt. */
    constructor()
      ensures loading && error.None? && receipt.None?
      ensures View() == Spinner
    {
      loading := true;
      error := None;
      receipt := None;
    }

    /** The spinner while loading, then a non-empty error, then the receipt. */
    function View(): (v: View)
      reads this
      ensures loading ==> v == Spinner
      ensures !loading && error.Some? && error.value != "" ==> v == ErrorText(error.value)
      ensures v.Card? ==> receipt == Some(v.receipt)
      ensures !loading && !(error.Some? && error.value != "") ==>
        v == (if receipt.Some? then Card(receipt.value) else Blank)
    {
      if loading then Spinner
      else if error.Some? && error.value != "" then ErrorText(error.value)
      else if receipt.Some? then Card(receipt.value)
      else Blank
    }

    /**
     * The effect that runs for route parameter `transactionId`. Without an id it
     * does nothing, so the page keeps showing the spinner; otherwise it fetches
     * and always ends with `loading` false. A failure keeps any earlier receipt.
     */
    method Load(transactionId: Option<string>, reply: Reply, now: string) returns (fetched: bool)
      modifies this
      ensures fetched <==> transactionId.Some? && transactionId.value != ""
      ensures !fetched ==> loading == old(loading) && error == old(error) && receipt == old(receipt)
      ensures fetched ==> !loading
      ensures fetched ==>
        match Fetch(transactionId.value, reply, now)
        case Shown(r) => error.None? && receipt == Some(r)
        case Failed(m) => error == Some(m) && receipt == old(receipt)
    {
      if transactionId.None? || transactionId.value == "" {
        return false;
      }
      fetched := true;
      var id := transactionId.value;
      loading := true;
      error := None;
      match reply {
        case Rejected(m) =>
          error := Some(MessageOr(m, DETAILS_FAILED));
        case Responded(ok, statusText, text, parsed, _) =>
          var data := TextBody(text, parsed);
          if !ok {
            error := Some(ErrorMessage(data, statusText));
          } else {
            receipt := Some(BuildReceipt(data, id, now));
          }
      }
      loading := false;
    }
  }
}
