# Billetera virtual — a Dafny model of the wallet client's logic

This project models the client-side logic of a React wallet application.
That logic covers:

- the validators of the transfer, registration, alias-change and password-reset forms;
- the `??` chains that turn a backend error body into one message;
- the receipt built from a transaction record;
- the paging cursor of the movements list;
- the two stores (`authStore`, `userStore`);
- the route guard and the application's route table.

Every network call is an input (`Http.Reply`): either a response or a rejected fetch.
A response carries its `ok` flag, status text, body text, the outcome of `JSON.parse` on that text, and whether the content type names JSON.
A page handler is modelled as one atomic step that runs against that input.

Each source file has its own module:

- Pages and stores that change state step by step are classes. Their methods carry `modifies` clauses and state the new state.
- The pure parts are functions with lemmas beside them: meta defaulting, the error chains, the receipt mapping, the validators, the guard and the route table.
- Two shared modules hold the JavaScript semantics the pages rely on:
  - `Js` holds the JSON value and `?.`, `??`, `||`, truthiness, `String()`, `JSON.stringify`, `Object.values`, `trim`, UTF-16 `length`, `toLowerCase`, `includes` and `Number()`.
  - `Http` holds the fetch outcome and the tolerant body decoding.

Some behaviour is modelled as the code has it, quirks included:

- `login` marks the user logged in whatever the HTTP status is.
- A login that fails without an error `response` leaves `loading` stuck at true.
- `next()` ignores `meta.last`.
- A transfer builds no receipt and refreshes nothing.
- The route guard tests the store's `loading` flag, not `checked`.
- The transaction-detail page keeps showing its spinner when the route has no id.
- `checkAuth`, `checked` and `register` are read from `src/stores/authStore.ts`, but that file does not define them. They are inputs here.

## Model

| member | source | states |
|---|---|---|
| Js.FieldSpec | src/pages/Movements.tsx:54-61 | a property read on a parsed object gives the value of a member with that key, and is absent exactly when no member has the key |
| Js.Get | src/pages/Movements.tsx:45 | `?.`: reading through null or undefined gives undefined, and a non-object has no such field |
| Js.Coalesce | src/pages/Movements.tsx:54 | `a ?? b` keeps `a` unless it is null or undefined |
| Js.FirstPresent | src/pages/TransactionDetails.tsx:30 | a `??` chain yields the first candidate that is neither null nor undefined, else the fallback; it is never null when the fallback is not |
| Js.FirstPresentIsCoalesceChain | src/pages/Transfer.tsx:59 | the chain `c0 ?? c1 ?? … ?? fallback` equals its first-present reading |
| Js.CoalesceAssociative | src/pages/Movements.tsx:45 | the grouping of a `??` chain does not matter |
| Js.CoalesceVersusOr | src/pages/Profile.tsx:42 | `??` and `\|\|` differ exactly on falsy values that are not null or undefined (`""`, `0`, `false`) |
| Js.Or | src/pages/Profile.tsx:86 | `a \|\| b` keeps `a` only when it is truthy |
| Js.ObjectValues | src/pages/Register.tsx:74 | `Object.values` throws exactly on null or undefined; an object gives the values of its own properties in property order, an array its items, a string its characters |
| Js.MemberValues | src/pages/Profile.tsx:34 | the values of an object are its members' values, in order |
| Js.KeysOf | src/pages/Profile.tsx:34 | the keys of a parsed object that are (or are not) array indices: exactly the keys present, each once |
| Js.KeysOfInFirstOccurrenceOrder | src/pages/Profile.tsx:34 | those keys are listed in the order in which each first occurs in the body |
| Js.FirstBeforeExtends | src/pages/Profile.tsx:34 | an order between keys seen in a prefix of the body holds in the whole body |
| Js.InsertKey | src/pages/Profile.tsx:34 | inserting an array index adds exactly that key |
| Js.InsertKeyAscending | src/pages/Profile.tsx:34 | inserting into an ascending list of indices keeps it ascending |
| Js.InsertKeyDistinct | src/pages/Profile.tsx:34 | inserting a new key into a list without repeats keeps it without repeats |
| Js.SortKeys | src/pages/Profile.tsx:34 | sorting the array indices keeps exactly the same keys |
| Js.SortKeysSorts | src/pages/Profile.tsx:34 | the sorted indices ascend numerically, and stay without repeats |
| Js.OwnKeys | src/pages/Profile.tsx:34 | the own keys of a parsed object are exactly the keys of its members |
| Js.OwnKeysDistinct | src/pages/Profile.tsx:34 | no own key is repeated, even when the body repeats a key |
| Js.OwnKeysIndicesFirst | src/pages/Profile.tsx:34 | array-index keys come before every other key, in ascending numeric order |
| Js.OwnKeysOthersInOrder | src/pages/Profile.tsx:34 | the other keys follow in the order of their first occurrence |
| Js.HasKeyField | src/pages/Profile.tsx:34 | every key of the body has a value |
| Js.Bind | src/pages/Profile.tsx:34 | each key is paired with the value a property read gives |
| Js.Properties | src/pages/Profile.tsx:34 | the properties follow the own keys, each with the value a property read gives, which is the last one written |
| Js.PropertiesBelow | src/pages/Transfer.tsx:59 | every property value is a value of some member of the object |
| Js.PropertiesAreFields | src/pages/Profile.tsx:34 | a key and value form a property exactly when reading that key gives that value |
| Js.FieldOfDistinct | src/pages/Profile.tsx:79 | when keys are distinct, reading a member's key gives that member's value |
| Js.KeysOfPlainMembers | src/pages/Profile.tsx:79 | with distinct keys and no array index, the keys are listed in member order and there are no index keys |
| Js.PropertiesOfPlainMembers | src/pages/Profile.tsx:79 | with distinct keys and no array index, the properties are the members themselves, in order |
| Js.IndexKeyComesFirst | src/pages/Register.tsx:74 | `{"b": x, "0": y}` has its properties in the order "0", "b" |
| Js.RepeatedKeyKeepsLastValue | src/pages/Register.tsx:74 | `{"a": x, "a": y}` has the one property "a" with value y |
| Js.Trim | src/pages/Transfer.tsx:32 | `trim()` gives the contiguous middle part of the text, with no white space at either end, and everything dropped before and after it is white space |
| Js.TrimStart | src/pages/Transfer.tsx:43 | the leading white space removed is all white space, and what remains starts with a non-space |
| Js.TrimEnd | src/pages/Transfer.tsx:43 | the trailing white space removed is all white space, and what remains ends with a non-space |
| Js.TrimEmptyIff | src/pages/Profile.tsx:54 | text trims to `""` exactly when it is all white space |
| Js.TrimIdempotent | src/pages/Profile.tsx:70 | trimming twice is trimming once |
| Js.TrimKeepsUnpadded | src/pages/Transfer.tsx:43 | text with no white space at either end is its own trim |
| Js.TrimSkipsLeadingSpace | src/pages/Profile.tsx:70 | a leading white-space character does not change the trimmed text |
| Js.Utf16Length | src/pages/Register.tsx:56 | `length` counts UTF-16 units: between one and two per character |
| Js.Utf16LengthBmp | src/pages/ResetPassword.tsx:19 | for text in the Basic Multilingual Plane, `length` is the number of characters |
| Js.ToLower | src/pages/Movements.tsx:102 | `toLowerCase` maps each ASCII capital to its small letter and keeps every other character |
| Js.LowerAscii | src/pages/Movements.tsx:102 | a capital letter moves by 32 code points; any other character is kept |
| Js.ContainsTransitive | src/pages/Movements.tsx:102 | if `u` contains `t` and `s` contains `u`, then `s` contains `t` |
| Js.NatToString | src/pages/TransactionDetails.tsx:45 | the decimal text of a natural number is all digits, with no leading zero |
| Js.NatToStringRoundTrip | src/pages/TransactionDetails.tsx:45 | reading back the decimal text of `n` gives `n` |
| Js.IntToString | src/pages/TransactionDetails.tsx:45 | a negative number's text is "-" followed by the text of its magnitude |
| Js.LeadingDigits | src/pages/Transfer.tsx:22 | the longest digit prefix: all digits, a prefix, and followed by a non-digit or the end |
| Js.LeadingDigitsStopAtNonDigit | src/pages/Transfer.tsx:22 | digits followed by a non-digit or by nothing are exactly the leading digits |
| Js.DecimalValue | src/pages/Transfer.tsx:22 | the value of `whole.frac` is at least the value of `whole` |
| Js.UnsignedDecimal | src/pages/TransactionDetails.tsx:45 | an all-digit numeral reads as its value, and empty text is NaN |
| Js.StringToNumber | src/pages/TransactionDetails.tsx:45 | `Number(text)` of blank text is 0 |
| Js.ToNumber | src/pages/TransactionDetails.tsx:45 | `Number()` keeps numbers, maps null to 0 and objects to NaN, and reads strings as numerals |
| Js.NumberOfNatText | src/pages/TransactionDetails.tsx:45 | `Number(String(n)) == n` for every natural number |
| Js.NumberOfIntText | src/pages/TransactionDetails.tsx:45 | `Number(String(n)) == n` for every integer |
| Js.Stringify | src/pages/Transfer.tsx:59 | `JSON.stringify` is never empty: null, booleans and numbers print as their literals, a string as its quoted form, an array within brackets and an object within braces |
| Js.Quote | src/pages/Transfer.tsx:59 | a serialised string is enclosed in double quotes |
| Js.ToStr | src/pages/Movements.tsx:104 | a template hole shows a string as it is, and undefined as "undefined" |
| Js.DigitChar | src/pages/Register.tsx:59 | a digit value maps to its ASCII digit character |
| Http.TextBody | src/pages/TransactionDetails.tsx:23-27 | an empty body is null, a body that parses is its JSON value, and any other body is the raw text |
| Http.MessageOr | src/pages/Transfer.tsx:71 | `err?.message ?? fallback` uses the message whenever there is one, even an empty one |
| Http.MessageElse | src/pages/Profile.tsx:42 | `err.message \|\| fallback` also falls back on an empty message |
| Movements.BackendQuery | src/pages/Movements.tsx:29-37 | the backend is asked for page `page - 1` with size 10 |
| Movements.FirstPageIsBackendZero | src/pages/Movements.tsx:25-37 | the starting UI page 1 is backend page 0, and a cursor of at least 1 never asks for a negative page |
| Movements.NumberOr | src/pages/Movements.tsx:56-59 | a missing or null numeric field takes its default, and a present number is kept |
| Movements.BoolOr | src/pages/Movements.tsx:60-61 | a missing or null flag takes its default, and a present boolean is kept |
| Movements.ContentOf | src/pages/Movements.tsx:54 | missing or null `content` gives an empty list, and an array is kept |
| Movements.MetaOf | src/pages/Movements.tsx:55-62 | each metadata field defaults separately: page 0, size 10, totalElements 0, totalPages 1, first false, last false |
| Movements.MetaDefaults | src/pages/Movements.tsx:54-62 | a body that is not an object yields the all-default metadata and no movements |
| Movements.MetaKeepsBackendFlags | src/pages/Movements.tsx:55-62 | the backend's `last` flag is carried over even when pages remain |
| Movements.ErrorMessagePicksFirstPresent | src/pages/Movements.tsx:44-46 | a non-ok message is the first present of `details.error`, `error`, `message` |
| Movements.ErrorMessageFallsBackToBody | src/pages/Movements.tsx:45-46 | with none of the three fields present, the message is `String(data)` |
| Movements.ErrorMessage | src/pages/Movements.tsx:44-46 | the shown message is the text of one of the three candidate fields that is present, or `String(data)` |
| Movements.TextBodyIsMessage | src/pages/Movements.tsx:41-46 | a body that is not JSON is itself the message |
| Movements.LoadResult | src/pages/Movements.tsx:44-66 | an error is set exactly when the metadata is null, and then the list is empty |
| Movements.LoadFailuresClearPage | src/pages/Movements.tsx:40-73 | every failure empties the list and nulls the metadata: a rejected fetch shows its message or 'Error al obtener movimientos'; a non-ok reply its chain message or its text; a JSON body that does not parse the syntax error; an ok null body the TypeError of reading `content` |
| Movements.LoadSuccessStoresBody | src/pages/Movements.tsx:54-62 | an ok JSON reply with a non-null body stores its `content` and its metadata, each field defaulted, and no error |
| Movements.PrevPage | src/pages/Movements.tsx:75-79 | `prev` moves the cursor down by one exactly when there is metadata and the page is above 1, and otherwise keeps it |
| Movements.NextPage | src/pages/Movements.tsx:81-85 | `next` moves the cursor up by one exactly when there is metadata and the page is below `totalPages`, and otherwise keeps it |
| Movements.PrevDisabled | src/pages/Movements.tsx:128 | "Anterior" is disabled whenever `prev` would not move |
| Movements.NextDisabled | src/pages/Movements.tsx:131 | "Siguiente" is disabled whenever `next` would not move |
| Movements.StepsMoveByOne | src/pages/Movements.tsx:75-85 | `prev` moves down by exactly 1 iff meta exists and page > 1; `next` moves up by exactly 1 iff meta exists and page < totalPages; otherwise each is a no-op, and page stays at least 1 |
| Movements.EnabledButtonsMove | src/pages/Movements.tsx:75-131 | an enabled button always moves the cursor |
| Movements.FlagsOnlyDisableButtons | src/pages/Movements.tsx:81-131 | `meta.last` disables "Siguiente" but `next` itself would still move, and the same holds for `meta.first` and `prev` |
| Movements.WalkStaysInRange | src/pages/Movements.tsx:75-85 | any sequence of clicks keeps the cursor at 1 or more and never beyond the larger of its start and totalPages; without meta it never moves |
| Movements.SentIffTypeContainsSent | src/pages/Movements.tsx:102 | a movement is sent iff its type is a string whose lower-case form contains "sent"; the "transfer_sent" test adds nothing |
| Movements.IsSent | src/pages/Movements.tsx:102 | only a movement whose `type` is a string can be sent |
| Movements.LineOf | src/pages/Movements.tsx:102-117 | rendering throws exactly for a null element, a `type` that is present but not a string, or an `amount` that is not a number; otherwise a sent movement shows "Pago a", the destination name and "- ", any other "Transferencia de", the origin name and "+ ", and the amount follows a "$" with two decimals |
| Movements.UntypedIsReceived | src/pages/Movements.tsx:102-117 | a movement without a type but with a numeric amount renders, as received |
| Movements.MovementsPage.constructor | src/pages/Movements.tsx:24-28 | the list starts empty at page 1 with no metadata, not loading and no error |
| Movements.MovementsPage.Load | src/pages/Movements.tsx:31-73 | the effect asks for the backend query of the current page, ends not loading, and stores exactly what `LoadResult` gives |
| Movements.MovementsPage.Prev | src/pages/Movements.tsx:75-79 | the cursor becomes `PrevPage` of the old one |
| Movements.MovementsPage.Next | src/pages/Movements.tsx:81-85 | the cursor becomes `NextPage` of the old one |
| Transfer.StripAmount | src/pages/Transfer.tsx:21 | the cleaned text keeps only digits and dots and is no longer than the input |
| Transfer.StripAmountConcat | src/pages/Transfer.tsx:21 | cleaning works piecewise over concatenation |
| Transfer.StripAmountKeepsAmountText | src/pages/Transfer.tsx:21 | text made only of digits and dots is unchanged, so cleaning is idempotent |
| Transfer.ParseDecimal | src/pages/Transfer.tsx:22 | `parseFloat` of cleaned text is NaN exactly when it is empty or a dot not followed by a digit; otherwise it is non-negative |
| Transfer.AmountOf | src/pages/Transfer.tsx:19-24 | the stored amount is never negative, because NaN becomes 0 |
| Transfer.StripAmountDropsOthers | src/pages/Transfer.tsx:21 | text with no digit and no dot cleans to "" |
| Transfer.StripAmountWithoutDigits | src/pages/Transfer.tsx:21 | text with no digit cleans to dots only |
| Transfer.AmountIgnoresOtherChars | src/pages/Transfer.tsx:21-23 | letters, commas, signs or any other characters inserted anywhere leave the stored amount unchanged, so "1,5" is stored as fifteen |
| Transfer.AmountOfWholeNumber | src/pages/Transfer.tsx:21-23 | typed digits are stored as their value |
| Transfer.ParseDecimalStopsAtSecondDot | src/pages/Transfer.tsx:22 | `parseFloat` reads `w.f` as that decimal and ignores anything from a second dot on |
| Transfer.AmountOfDecimal | src/pages/Transfer.tsx:21-23 | typed `w.f` is stored as that decimal, and whatever follows a second dot is ignored |
| Transfer.AmountWithoutDigitsIsZero | src/pages/Transfer.tsx:21-23 | any text without a digit is stored as 0 |
| Transfer.StoredAmountIsNotNegative | src/pages/Transfer.tsx:23-33 | any typed text yields an amount ≥ 0, so `amount <= 0` only ever catches 0 |
| Transfer.FormatCurrency | src/pages/Transfer.tsx:5-8 | NaN and 0 format as the literal "$0,00"; any other amount is "$" followed by its es-AR rendering |
| Transfer.Validate | src/pages/Transfer.tsx:31-33 | at most two messages are collected |
| Transfer.ValidateReports | src/pages/Transfer.tsx:31-33 | the alias message appears iff the trimmed alias is empty; the amount message appears iff the amount is ≤ 0; no other message appears; when both appear the alias message is first |
| Transfer.ValidateBlankAliasAndZero | src/pages/Transfer.tsx:31-33 | a blank alias with amount 0 gives both messages, in order |
| Transfer.ValidatePassesIff | src/pages/Transfer.tsx:31-35 | a submission passes iff the alias has a non-blank character and the amount is positive |
| Transfer.ErrorMessagePicksFirstPresent | src/pages/Transfer.tsx:59-61 | a non-ok message is the first present of `details.error`, `details.message`, `error`, `message` |
| Transfer.ErrorMessageFallsBackToJson | src/pages/Transfer.tsx:59 | with none of the four fields present, the message is the non-empty `JSON.stringify` of the body |
| Transfer.ErrorMessageExamples | src/pages/Transfer.tsx:59 | `{details: {error: X}}` gives X, and `{message: Y}` gives Y |
| Transfer.ErrorMessage | src/pages/Transfer.tsx:59-61 | the shown message is the text of one of the four candidate fields that is present, or the `JSON.stringify` of the body |
| Transfer.SuccessMessageText | src/pages/Transfer.tsx:66 | the confirmation is exactly "Transferencia realizada a ", then the alias as typed (untrimmed), then " por ", then the formatted amount |
| Transfer.Settle | src/pages/Transfer.tsx:54-74 | after a request there is either exactly one error or a success message, never both; the form resets exactly on success |
| Transfer.SettleCases | src/pages/Transfer.tsx:54-71 | success iff the reply is ok with a JSON body, and then the text is `SuccessMessage` of the typed alias and amount; a non-ok reply yields only its chain message; a body that does not parse yields its syntax error; a rejected fetch its message or 'Error inesperado al realizar la transferencia' |
| Transfer.TransferForm.constructor | src/pages/Transfer.tsx:11-16 | an empty form with amount 0, no errors, no success, not loading |
| Transfer.TransferForm.ChangeAmount | src/pages/Transfer.tsx:19-24 | the stored amount is `AmountOf` of the typed text |
| Transfer.TransferForm.EditAlias | src/pages/Transfer.tsx:98 | the alias field takes the typed text |
| Transfer.TransferForm.EditDescription | src/pages/Transfer.tsx:124 | the description field takes the typed text |
| Transfer.TransferForm.Request | src/pages/Transfer.tsx:40-74 | after validation has passed, loading ends false, errors and success are what `Settle` gives, and the three fields are cleared exactly on success |
| Transfer.TransferForm.Submit | src/pages/Transfer.tsx:26-76 | a request is made iff validation passes; on failure only the errors change; on success the payload carries the trimmed alias, the amount and the description, the outcome is what `Settle` says, and loading ends false |
| TransactionDetails.Backend | src/pages/TransactionDetails.tsx:36 | `data ?? {}` |
| TransactionDetails.Read | src/pages/TransactionDetails.tsx:38-47 | `backend.key ?? otherwise` gives the key's value unless it is missing or null, and then the fallback |
| TransactionDetails.ReadChain | src/pages/TransactionDetails.tsx:38-47 | a read of an object falling back on a `??` chain is that chain with the read field in front |
| TransactionDetails.ReadNeverNull | src/pages/TransactionDetails.tsx:38-47 | a read with a non-null fallback is never null |
| TransactionDetails.NonObjectBackendIsEmpty | src/pages/TransactionDetails.tsx:36-47 | on a body that is not an object, every read gives its fallback |
| TransactionDetails.BuildReceipt | src/pages/TransactionDetails.tsx:36-48 | no field of the built receipt is null |
| TransactionDetails.ReceiptOfNonObject | src/pages/TransactionDetails.tsx:36-48 | a body that is not an object gives the route id, '---' for every party field, amount 0, the current time and an empty description |
| TransactionDetails.ReceiptPartiesOfObject | src/pages/TransactionDetails.tsx:39-44 | on an object body each of the six party fields is the first present of its camelCase and its snake_case name, and '---' when neither is |
| TransactionDetails.PartyOfObject | src/pages/TransactionDetails.tsx:39 | one party field of an object body reads its camelCase name, then its snake_case name, then '---' |
| TransactionDetails.ReceiptOperationNumberOfObject | src/pages/TransactionDetails.tsx:38 | on an object body the operation number is the first present of `operationNumber`, `transactionId`, `operationId`, and else the route id |
| TransactionDetails.ReceiptDefaultsOfObject | src/pages/TransactionDetails.tsx:45-47 | on an object body amount, date and description are the backend's when present (the amount through `Number()`), and else 0, the current time and "" |
| TransactionDetails.OperationNumberFallsBackToRoute | src/pages/TransactionDetails.tsx:38 | with none of `operationNumber`, `transactionId`, `operationId` present, the operation number is the route id |
| TransactionDetails.ErrorMessageOfUndecodedBody | src/pages/TransactionDetails.tsx:23-31 | an empty body reports the status text, and a non-JSON body is shown as it came |
| TransactionDetails.ErrorMessagePicksFirstPresent | src/pages/TransactionDetails.tsx:29-31 | a non-ok message is the first present of `details.error`, `error`, `message`; `details.message` is not consulted |
| TransactionDetails.ErrorMessage | src/pages/TransactionDetails.tsx:29-31 | an empty body shows the status text; otherwise the message is the text of a present candidate field, or the body shown as a string |
| TransactionDetails.Fetch | src/pages/TransactionDetails.tsx:18-52 | a receipt is shown iff the response is ok, and it is the receipt built from the decoded body; a non-ok response fails with the message chain over the decoded body and the status text; a rejected fetch uses its message or the fixed fallback |
| TransactionDetails.DetailsPage.constructor | src/pages/TransactionDetails.tsx:9-11 | the page starts loading, with no error and no receipt, showing the spinner |
| TransactionDetails.DetailsPage.View | src/pages/TransactionDetails.tsx:61-70 | the spinner shows while loading, then a non-empty error; otherwise the receipt card when there is a receipt and nothing when there is none |
| TransactionDetails.DetailsPage.Load | src/pages/TransactionDetails.tsx:13-59 | nothing is fetched and nothing changes when the id is absent or empty; otherwise loading ends false and the page holds what `Fetch` gives, a failure keeping any earlier receipt |
| Register.With | src/pages/Register.tsx:49-52 | the named field takes the value and every other field keeps its value |
| Register.WithOverwrites | src/pages/Register.tsx:49-52 | writing a field twice keeps the second value, and writing back its own value changes nothing |
| Register.EmailExamples | src/pages/Register.tsx:58 | "ana@mail.com" matches `\S+@\S+\.\S+`; "ana@mail" and "ana @.com" do not |
| Register.EmailShapedExtends | src/pages/Register.tsx:58 | the pattern is unanchored: text around a matching address still matches |
| Register.EmailShapedHasAtThenDot | src/pages/Register.tsx:58 | every match has an '@' with a '.' after it |
| Register.EmailShaped | src/pages/Register.tsx:58 | a matching address has at least five characters, an '@' and a '.' |
| Register.DniExamples | src/pages/Register.tsx:59 | any number's decimal text matches `^\d+$`; "" and "12.345.678" do not |
| Register.DniShaped | src/pages/Register.tsx:59 | a matching DNI is all digits, and `Number()` of it is its decimal value |
| Register.Validate | src/pages/Register.tsx:54-61 | the first failing check wins: password length < 8, then a mismatch, then the email pattern, then the DNI pattern; null iff all pass |
| Register.EmptyFormFailsOnPassword | src/pages/Register.tsx:27-56 | the initial form fails on the password length |
| Register.ValidateIgnoresOtherFields | src/pages/Register.tsx:54-61 | editing a field the checks do not read never changes the verdict |
| Register.RegisterPage.constructor | src/pages/Register.tsx:42-43 | the form starts with every field empty, and no errors |
| Register.RegisterPage.Change | src/pages/Register.tsx:49-52 | the form becomes `With` of the old form |
| Register.RegisterPage.Submit | src/pages/Register.tsx:63-81 | a validation failure shows one message and calls nothing; the result fails iff `success` is falsy and `error` is present, and then the errors are the values of `result.error`; success iff `success` is truthy, and then the errors clear and the page navigates to '/'; otherwise reading the result throws and the errors stay |
| Profile.DetailsErrors | src/pages/Profile.tsx:33-79 | a non-ok body's errors are `Object.values(data.details)`; a null body or missing details throws, and the caught message is shown |
| Profile.DetailsErrorsOfFieldMessages | src/pages/Profile.tsx:78-79 | an object of field messages yields those messages in property order |
| Profile.DetailsErrorsOfFieldNames | src/pages/Profile.tsx:78-79 | when its keys are distinct field names, that is the body's order |
| Profile.LoadPatch | src/pages/Profile.tsx:26-46 | the alias field is seeded iff no error is set, iff the reply is ok with a non-null JSON body, and then the user is that body and the alias its `alias`; a rejected fetch or an unparsable body shows its message or the fixed fallback; a non-ok body shows `DetailsErrors`; an ok null body is stored as the user and the TypeError is shown |
| Profile.CheckAlias | src/pages/Profile.tsx:54-70 | empty iff the alias is falsy or blank; not text iff it is truthy but not a string; same iff it is non-blank text equal, before trimming, to the user's alias; accepted iff it is non-blank text that differs, and then it is sent trimmed and non-empty |
| Profile.PaddedCurrentAliasIsSent | src/pages/Profile.tsx:58-70 | the current alias with a leading space passes the sameness check and is sent as the current alias |
| Profile.SaveFeedback | src/pages/Profile.tsx:75-86 | success iff the reply is ok with a JSON body, and then no errors; a rejected fetch or an unparsable body shows its message or the fixed fallback; a non-ok body shows `DetailsErrors` |
| Profile.ProfilePage.constructor | src/pages/Profile.tsx:17-22 | no user, an empty alias field, loading, not saving, no errors, no success |
| Profile.ProfilePage.EditAlias | src/pages/Profile.tsx:146 | the alias field takes the typed text |
| Profile.ProfilePage.Load | src/pages/Profile.tsx:25-49 | loading ends false, and user, alias and errors change exactly as `LoadPatch` says |
| Profile.ProfilePage.Send | src/pages/Profile.tsx:63-89 | after the checks have passed, saving ends false and errors and success are what `SaveFeedback` gives |
| Profile.ProfilePage.Save | src/pages/Profile.tsx:51-90 | a request is made iff `CheckAlias` accepts, with the trimmed alias; the inline checks set their message and stop; saving ends false after a request; user and alias never change |
| ResetPassword.TokenOf | src/pages/ResetPassword.tsx:7 | the token is the query parameter, or "" when absent |
| ResetPassword.Check | src/pages/ResetPassword.tsx:17-20 | the first failing check wins: empty token, then a password shorter than 6, then a mismatch; none iff all pass |
| ResetPassword.EmptyPasswordTestIsRedundant | src/pages/ResetPassword.tsx:19 | the `!newPassword` test adds nothing to the length test |
| ResetPassword.AstralCharactersCountTwice | src/pages/ResetPassword.tsx:19 | three astral-plane characters pass the length check of 6 |
| ResetPassword.ErrorMessage | src/pages/ResetPassword.tsx:37 | the shown message is never null |
| ResetPassword.ErrorMessageCases | src/pages/ResetPassword.tsx:30-37 | an empty body shows the status text; non-JSON text shows itself; an object shows its `message`, or "[object Object]" without one; any other JSON value shows its `String()` form |
| ResetPassword.ResetPasswordPage.constructor | src/pages/ResetPassword.tsx:6-13 | the token comes from the query; empty fields, not loading, no message |
| ResetPassword.ResetPasswordPage.EditPassword | src/pages/ResetPassword.tsx:57 | the password field takes the typed text |
| ResetPassword.ResetPasswordPage.EditConfirm | src/pages/ResetPassword.tsx:61 | the confirmation field takes the typed text |
| ResetPassword.ResetPasswordPage.Submit | src/pages/ResetPassword.tsx:15-48 | a request with the token and password is made iff the checks pass; the redirect is scheduled iff the response is ok; a non-ok response shows the chain message; loading ends false |
| AuthStore.CaughtError | src/stores/authStore.ts:31 | `err?.response.data \|\| "Error no controlado"`: no error gives the fixed text; an error without `response` throws; otherwise a truthy value results |
| AuthStore.AfterLogin | src/stores/authStore.ts:19-33 | a response of any status logs the user in, with loading false and no error; the call rejects iff the catch throws, and then loading stays true and the error null; it resolves undefined iff the catch sets an error, and then the user is logged out with it |
| AuthStore.AnyStatusLogsIn | src/stores/authStore.ts:28 | any HTTP status, 401 included, sets `isLogged` |
| AuthStore.NetworkFailureLeavesLoading | src/stores/authStore.ts:30-31 | any error object without `response`, as a network failure throws, makes the call reject and leaves `loading` true |
| AuthStore.AfterLogout | src/stores/authStore.ts:35-42 | logout clears `isLogged` and leaves `loading` and `error` as they were |
| AuthStore.LoadingOnlyAfterStuckLogin | src/stores/authStore.ts:15-42 | from a state that is not loading, `loading` can be true after a sequence of calls only if some login's catch branch threw |
| AuthStore.LogoutLast | src/stores/authStore.ts:35-42 | whatever came before, a final logout leaves the user logged out |
| AuthStore.Store.constructor | src/stores/authStore.ts:15-17 | not logged in, not loading, no error |
| AuthStore.Store.Login | src/stores/authStore.ts:19-33 | the new state and the result are `AfterLogin` of the old state |
| AuthStore.Store.Logout | src/stores/authStore.ts:35-42 | the new state is `AfterLogout` of the old state |
| UserStore.AfterGetUser | src/stores/userStore.tsx:36-53 | every outcome ends not loading and hydrated; the user changes only to the payload of an ok JSON response; a rejected fetch or an unparsable body rethrows the fixed message and keeps the user |
| UserStore.RunKeepsLastDelivered | src/stores/userStore.tsx:36-53 | after any calls the store is hydrated and not loading, and the user is the payload of the last delivering reply, or unchanged when none delivered |
| UserStore.Store.constructor | src/stores/userStore.tsx:33-35 | no user, not loading, not hydrated |
| UserStore.Store.GetUser | src/stores/userStore.tsx:36-53 | the new state and the thrown message are `AfterGetUser` of the old state |
| ProtectedRoute.Decide | src/components/ProtectedRoute.tsx:9-20 | loading gives the placeholder whatever `isLogged` is; otherwise a logged-out user is redirected to /login with replace, and a logged-in user gets the children |
| ProtectedRoute.ChildrenIff | src/components/ProtectedRoute.tsx:13-19 | the children render iff not loading and logged in; a redirect happens iff not loading and logged out |
| ProtectedRoute.LoadingHidesLogin | src/components/ProtectedRoute.tsx:13 | while loading, `isLogged` makes no difference |
| App.Lookup | src/App.tsx:26-56 | a route is found iff some route has the path; the one found has it, and no earlier route does |
| App.Render | src/App.tsx:14-58 | while `checked` is false only the loading text renders; '/' navigates, without replace, to /dashboard or /login according to `isLogged`; guarded pages carry the guard's decision; nothing matches iff the path is neither '/' nor in the table |
| App.MountEffects | src/App.tsx:17-19 | mounting calls `checkAuth` exactly once |
| App.PathsDistinct | src/App.tsx:28-55 | no two routes share a path |
| App.LookupFindsRoute | src/App.tsx:26-56 | in a table without repeated paths, a route's own path finds that route |
| App.RootIsNotARoute | src/App.tsx:21-28 | "/" is not in the route table |
| App.RenderRoute | src/App.tsx:26-56 | each route of the table renders its own page, behind the guard exactly when it is guarded |
| App.RouteTable | src/App.tsx:28-55 | /dashboard, /ingresar, /transferir, /profile and /movimientos are guarded; /login, /register and /recovery are open |
| App.GuardedContentNeedsLogin | src/App.tsx:21-52 | an account page's content renders iff auth is checked, not loading and logged in, and the path is that page's |
| App.OpenPagesIgnoreFlags | src/App.tsx:53-55 | once checked, an open page renders whatever `loading` and `isLogged` are |

## Left out

- Network I/O, the backend URLs and credentials mode are not modelled. Each call's outcome is an input (`Http.Reply`), and the JSON parser's result is part of that input.
- A rejection of `res.text()` or `res.json()` other than a parse failure is not modelled.
- JSON numbers are integers. Fractional numbers in bodies are not modelled.
- Floating point is not modelled:
  - `Transfer.ParseDecimal` gives the exact decimal value, not its binary64 rounding.
  - `Js.StringToNumber` reads exponents, hexadecimal, binary and octal prefixes and "Infinity" as NaN.
- `Transfer.FormatCurrency` takes the es-AR rendering of a non-zero amount as an input. `toLocaleString`, `toFixed` and the receipt's `prettyDate` are not modelled.
- `new Date().toISOString()` is an input ("now"). The 1.5-second `setTimeout` redirect after a password reset is reported as a flag, not run.
- Effects are modelled as atomic steps. The movements effect re-running when the page changes, overlapping submits and interleavings are not modelled.
- React Router matching is not modelled: a path matches a route only when it is equal to it. Trailing slashes, case folding and the catch-all are not modelled.
- Zustand's `persist` middleware and local storage are not modelled.
- `checkAuth`, `checked` and `register` are not defined in `src/stores/authStore.ts`. `checked` and `register`'s result are inputs, and `checkAuth` is only recorded as called on mount.
- Some source files are not part of this model:
  - the Mercado Pago deposit page;
  - the presentational components (header, user and account data, landing, root, login, recovery);
  - the receipt card's PDF export and alerts.
- `Js.ObjectValues`: on a string, each character is taken as one value. Astral-plane characters are split into two UTF-16 code units by the engine, and the model does not capture that split.
- `Js.LowerAscii`: only ASCII letters are lowered. `toLowerCase` on other scripts is not modelled.
- `Js.ToLower`: keeps every non-ASCII character, so `|r| == |s|` always holds. Full Unicode lower-casing can change the length (U+0130 becomes "i" plus a combining dot), and so can other special cases; the model does not capture them.
- `Movements.LineOf`: a render that throws is `None`; React's error handling after it is not modelled. The `date` cell is not modelled, though an object `date` also makes React throw. `toFixed` of an amount of 10^21 or more gives exponent notation, which the model does not produce.
- `Movements.ContentOf`: a `content` that is present but not an array is stored by the page and breaks its rendering. The model stores an empty list.
- `Movements.NumberOr` and `Movements.BoolOr`: a present field of the wrong JSON type is kept by the page as it is. The model replaces it with the default.
- Engine TypeError messages, such as reading a property of null or `Object.values(undefined)`, are an input (`typeErrorMessage`). One input stands for all of them: the engine words `null.details`, `Object.values(undefined)` and `null.alias` differently, and the model does not tell these texts apart.
- `Register.RegisterPage.Submit`: a rejection of the `register` promise itself is not modelled; only the value it resolves to is an input.
