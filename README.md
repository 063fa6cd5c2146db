# TastyBites console pages in Dafny

A model of the four page components of the TastyBites React console: the order
list, the customer list, the order form and the customer form. Each page holds
React state (the cached records, a draft, `loading`, `error`) and changes it
step by step in its handlers. Here each page is a class with those fields, and
each handler is a method that runs from start to finish. The server's answer to
the handler's request is a parameter of the method. So is the user's answer to
the delete confirmation dialog.

The pure parts are functions with lemmas about them:

- **Menu items.** The order form turns the comma-separated menu-items text into
  the list it sends: split on `,`, trim each piece, drop the empty ones. Editing
  an order turns the stored list back into text joined with `", "`.
- **Error texts.** Every failed request becomes a user-facing message. The text
  comes from the server's `message` field, from the status fallback
  `HTTP error! status: N`, or from `Unknown error occurred.` when the body is
  not JSON. A page-specific prefix is then added.
- **Route ids.** A route id is parsed with `parseInt(_, 10)`. Edit mode holds
  exactly when that id is a non-zero number.

The JavaScript runtime behaviour the pages rely on is written out in module
`JsRuntime`. It covers `String.prototype.trim`, `split` on a one-character
separator, `Array.prototype.join`, `parseInt` with radix 10 (including `NaN`)
and the decimal text of an integer.

Modules:

- `JsRuntime`: the runtime functions listed above.
- `Api`: requests, the three ways a request settles, error-message
  construction, and the route id.
- `Records`: the records the server returns, and the date part of a stored
  timestamp.
- `ListState` and `FormState`: what the list pages and the form pages share.
- `MenuItemsInput`: the menu-items text.
- `OrdersList`, `CustomersList`, `OrderForm`, `CustomerForm`: one page each.

A request settles as a `Response`:

- `Success(data)`: an OK response.
- `HttpFailure(status, body)`: a non-OK status with its body. The body is
  either not JSON or a JSON object whose `message` is absent or falsy, a
  string, or an array of strings.
- `Rejected(reason)`: a network failure, or invalid JSON in an OK response. The
  reason is an `Error` with its message or some other value.

Four behaviours of the code are worth noting:

- **How an array `message` becomes text.** Only the two save handlers join it
  with `"; "`. The fetch and delete paths pass the array straight to
  `new Error(...)`, which joins it with `","`. `Api.SeparatorsDiffer` shows that
  the two wordings differ exactly when the array has two or more lines.
- **The list after a failed fetch.** The cached list stays in state, but the
  page renders only the error text, not the stale list. `View()` after a failed
  `FetchOrders` is `ErrorView`.
- **Empty menu-items lists.** The client does not insist on a non-empty list.
  A text of only commas and blanks parses to `[]`
  (`MenuItemsInput.BlankPiecesGiveNoItems`), and that is what the form sends.
- **Non-`Error` rejections.** When a rejection is not an `Error`, the fetch and
  order-save paths print its message as `undefined`. The delete paths and the
  customer save use a fixed "unknown error" text instead.

## Model

| member | source | states |
|---|---|---|
| JsRuntime.TrimStartSpec | src/pages/OrderForm.tsx:146 | what `trimStart` keeps is a suffix of the input that does not start with whitespace, and everything it drops is whitespace |
| JsRuntime.TrimEndSpec | src/pages/OrderForm.tsx:146 | what `trimEnd` keeps is a prefix of the input that does not end with whitespace, and everything it drops is whitespace |
| JsRuntime.Trim | src/pages/OrderForm.tsx:146 | `trim()` is never longer than its input, and a non-empty result has no whitespace at either end |
| JsRuntime.TrimSpec | src/pages/OrderForm.tsx:146 | `trim()` is empty exactly when the input is all whitespace, and every character it keeps comes from the input |
| JsRuntime.TrimKeepsOut | src/pages/OrderForm.tsx:145-146 | trimming never introduces a character, so a comma-free piece stays comma-free |
| JsRuntime.TrimTrimmed | src/pages/OrderForm.tsx:146 | a text with no whitespace at either end is its own trim |
| JsRuntime.TrimPadded | src/pages/OrderForm.tsx:146 | leading whitespace does not change the trimmed text |
| JsRuntime.SplitHead | src/pages/CustomerForm.tsx:65 | the first piece of a split is the text before the first separator, or the whole text when there is none |
| JsRuntime.Split | src/pages/OrderForm.tsx:144-145 | `split(sep)` yields at least one piece, and no piece contains the separator |
| JsRuntime.SplitNoSeparator | src/pages/OrderForm.tsx:145 | a text without the separator splits into itself alone |
| JsRuntime.SplitConcat | src/pages/OrderForm.tsx:145 | splitting `a + sep + b` is splitting `a`, then splitting `b` |
| JsRuntime.SplitPrefix | src/pages/OrderForm.tsx:145 | separator-free text in front of a string is glued to its first piece |
| JsRuntime.JoinSplit | src/pages/OrderForm.tsx:107 | joining the pieces of a split with the same character restores the text |
| JsRuntime.SplitJoin | src/pages/OrderForm.tsx:107 | splitting separator-free parts joined by the separator restores the parts |
| JsRuntime.Join | src/pages/OrderForm.tsx:107 | joining no parts gives `''`; otherwise the joined text starts with the first part |
| JsRuntime.JoinLength | src/pages/OrderForm.tsx:169 | a joined text is as long as its parts together plus one separator between each two |
| JsRuntime.DigitChar | src/pages/OrderForm.tsx:140 | each decimal digit value has a digit character that reads back as that value |
| JsRuntime.DigitPrefix | src/pages/OrderForm.tsx:128 | the digits `parseInt` reads: the longest all-digit prefix |
| JsRuntime.NatToString | src/pages/OrderForm.tsx:140 | the decimal text of an id in a URL is non-empty, all digits, with no leading zero |
| JsRuntime.IntToString | src/pages/CustomersList.tsx:62 | the decimal text of an id is never empty and starts with `-` exactly when the id is negative |
| JsRuntime.DigitsValueOfNat | src/pages/OrderForm.tsx:140 | the decimal text of a number reads back as that number |
| JsRuntime.DigitPrefixOfDigits | src/pages/OrderForm.tsx:128 | `parseInt` reads every digit of an all-digit text |
| JsRuntime.ParseDigits | src/pages/OrderForm.tsx:128 | the digits read without a sign never give a negative number |
| JsRuntime.ParseInt | src/pages/OrderForm.tsx:128 | `parseInt` of a blank text is NaN, and a negative result needs a `-` as the first non-blank character |
| JsRuntime.ParseAllDigits | src/pages/OrderForm.tsx:128 | an all-digit text is read in full as its decimal value |
| JsRuntime.ParseUnsigned | src/pages/OrderForm.tsx:128 | `parseInt` of a digit string is its decimal value |
| JsRuntime.ParseNegative | src/pages/OrderForm.tsx:128 | `parseInt` of a minus sign and digits is the negated decimal value |
| JsRuntime.ParseIntRoundTrip | src/pages/OrderForm.tsx:128 | `parseInt` of the decimal text of any integer gives back that integer |
| Api.EditId | src/pages/OrderForm.tsx:27-29 | edit mode holds exactly when the route id is present and parses to a truthy (non-zero, non-NaN) number, and the edited id is that number |
| Api.EditIdRoundTrip | src/pages/CustomerForm.tsx:31-32 | the decimal text of a non-zero id selects edit mode for that very id; the text of 0 selects create mode |
| Api.StatusRecoverable | src/pages/OrdersList.tsx:40-45 | with no usable `message`, the error text is the status prefix followed by text that parses back to the status |
| Api.SeparatorsDiffer | src/pages/OrderForm.tsx:163-171 | the save path's `"; "` wording and the fetch path's `","` wording of a server message agree exactly when the message is not an array of two or more lines |
| Api.ServerMessage | src/pages/OrdersList.tsx:41-44 | an unparseable body gives `Unknown error occurred.`; a non-empty string message is used as is; an array message is joined with the path's separator; any message that is not an array gives a non-empty text |
| Api.Caught | src/pages/OrdersList.tsx:39-49 | a non-OK status reaches the `catch` as an `Error` carrying the server's message; a rejection reaches it unchanged; the caught value is not an `Error` exactly for a non-`Error` rejection |
| Api.MessageText | src/pages/OrdersList.tsx:51 | `${err.message}` is the message of an `Error` and `undefined` for any other value |
| Api.DeleteFailureMessage | src/pages/OrdersList.tsx:79-83 | a non-OK status gives the server's message with an array joined by `","`; an `Error` rejection gives its message; any other rejection gives `An unknown error occurred` |
| Records.DateInputValue | src/pages/CustomerForm.tsx:64-66 | a missing or empty stored date gives an empty date input; any other stored date gives its date part |
| Records.DatePart | src/pages/CustomerForm.tsx:65 | `split('T')[0]` is a prefix of the timestamp without a `T`, followed in the timestamp by a `T` or by nothing |
| Records.DatePartOfTimestamp | src/pages/CustomerForm.tsx:65 | the date part of a timestamp is exactly the text before its first `T` |
| Records.DatePartExample | src/pages/CustomerForm.tsx:65 | `1990-05-04T00:00:00.000Z` is shown as `1990-05-04` |
| ListState.SelectView | src/pages/OrdersList.tsx:90-101 | the loading view exactly while loading; the error view exactly when not loading and the error is non-empty, with that error; the empty view exactly when not loading, no error and no rows; the table exactly when not loading, no error and some rows, with exactly those rows |
| ListState.Without | src/pages/OrdersList.tsx:76 | the kept rows are rows of the list that do not carry the id, and every row without the id is kept |
| ListState.WithoutAppend | src/pages/OrdersList.tsx:76 | filtering works piece by piece, so kept rows keep their relative order |
| ListState.WithoutAbsent | src/pages/CustomersList.tsx:73 | filtering by an id no row carries leaves the list unchanged |
| ListState.WithoutLength | src/pages/CustomersList.tsx:73 | the filter drops exactly as many rows as carry the id |
| OrdersList.OrdersListPage.constructor | src/pages/OrdersList.tsx:29-31 | the page starts with no orders, not loading and no error |
| OrdersList.OrdersListPage.View | src/pages/OrdersList.tsx:90-101 | the loading text exactly while loading; otherwise the error text exactly when the error is non-empty; otherwise the empty text exactly when no order is cached, else the table of every cached order |
| OrdersList.OrdersListPage.FetchOrders | src/pages/OrdersList.tsx:35-54 | GET /orders; the loading view while pending and `loading` false at the end; a success replaces the whole list and shows the table or the empty text; a failure keeps the list, sets `Failed to fetch orders: <msg>. Please try again.` and shows it |
| OrdersList.OrdersListPage.HandleDelete | src/pages/OrdersList.tsx:61-88 | unconfirmed: no request and no change; confirmed: DELETE /orders/{id}, loading while pending; a success drops exactly the orders with that id; a failure keeps the list and sets `Failed to delete order: <msg>` |
| CustomersList.CustomersListPage.constructor | src/pages/CustomersList.tsx:21-23 | the page starts with no customers, not loading and no error |
| CustomersList.CustomersListPage.View | src/pages/CustomersList.tsx:85-88 | the loading text exactly while loading; otherwise the error text exactly when the error is non-empty; otherwise the empty text exactly when no customer is cached, else the table of every cached customer |
| CustomersList.CustomersListPage.FetchCustomers | src/pages/CustomersList.tsx:28-48 | GET /customers; the loading view while pending and `loading` false at the end; a success replaces the whole list; a failure keeps it, sets `Failed to fetch customers: <msg>. Please try again.` and shows it |
| CustomersList.CustomersListPage.HandleDelete | src/pages/CustomersList.tsx:56-83 | unconfirmed: no request and no change; confirmed: DELETE /customers/{id}; a success drops exactly the customers with that id; a failure keeps the list and sets `Failed to delete customer: <msg>` |
| FormState.SaveRequest | src/pages/OrderForm.tsx:139-140 | PATCH exactly in edit mode, POST exactly in create mode, and the body is the payload as given |
| FormState.RecordUrl | src/pages/CustomerForm.tsx:53 | a record's URL is the collection's URL, a slash, and a last segment that `parseInt` reads back as the id |
| FormState.SaveTargetsRoute | src/pages/CustomerForm.tsx:98-99 | a create goes to the collection URL; an update goes to a URL whose last segment parses back to the route's id |
| MenuItemsInput.TrimEach | src/pages/OrderForm.tsx:146 | `map(trim)` keeps the number of pieces |
| MenuItemsInput.TrimEachPieces | src/pages/OrderForm.tsx:146 | `map(trim)` trims each piece in place |
| MenuItemsInput.DropEmpty | src/pages/OrderForm.tsx:147 | `filter(item !== '')` never lengthens the list |
| MenuItemsInput.ParseMenuItems | src/pages/OrderForm.tsx:144-147 | the submitted list never has more items than the text has comma-separated pieces; the lemmas below state what the items are |
| MenuItemsInput.MenuItemsText | src/pages/OrderForm.tsx:107 | no items give `''`; otherwise the text is as long as the items together plus two characters between each two; its contents are given back by `MenuItemsRoundTrip` |
| MenuItemsInput.DropEmptyClean | src/pages/OrderForm.tsx:147 | dropping the empty pieces of trimmed, comma-free pieces leaves only clean items |
| MenuItemsInput.TrimmedPiece | src/pages/OrderForm.tsx:145-146 | a comma-free piece trims to a comma-free text with no whitespace at either end |
| MenuItemsInput.TrimmedPieces | src/pages/OrderForm.tsx:145-146 | trimming comma-free pieces gives trimmed, comma-free pieces |
| MenuItemsInput.ParseMenuItemsClean | src/pages/OrderForm.tsx:144-147 | every submitted menu item is non-empty, comma-free and has no whitespace at either end |
| MenuItemsInput.TrimEachAppend | src/pages/OrderForm.tsx:146 | trimming works piece by piece |
| MenuItemsInput.DropEmptyAppend | src/pages/OrderForm.tsx:147 | filtering works piece by piece, keeping order |
| MenuItemsInput.ParseMenuItemsAppend | src/pages/OrderForm.tsx:144-147 | the items of `a,b` are the items of `a` followed by the items of `b` |
| MenuItemsInput.ParseMenuItemsSingle | src/pages/OrderForm.tsx:144-147 | a comma-free text gives its trimmed text as the only item, or no item when it is blank |
| MenuItemsInput.ParseMenuItemsPadded | src/pages/OrderForm.tsx:144-147 | leading whitespace does not change the items |
| MenuItemsInput.MenuItemsRoundTrip | src/pages/OrderForm.tsx:107 | for clean items, joining with `", "` as the edit form does and parsing as the submit does gives back the same list |
| MenuItemsInput.ParseMenuItemsStable | src/pages/OrderForm.tsx:144-147 | parsing the text shown for parsed items gives the same items |
| MenuItemsInput.OneItem | src/pages/OrderForm.tsx:144-147 | one clean item, with or without a leading blank, parses to itself |
| MenuItemsInput.BlankThenItem | src/pages/OrderForm.tsx:147 | a blank piece before an item is dropped |
| MenuItemsInput.ItemBlankItem | src/pages/OrderForm.tsx:147 | a blank piece between two items is dropped, and the two keep their order |
| MenuItemsInput.ThreeItemsWithBlank | src/pages/OrderForm.tsx:144-147 | `x, y, , z` parses to `[x, y, z]` for any clean items |
| MenuItemsInput.ParseMenuItemsExample | src/pages/OrderForm.tsx:144-147 | `"Burger, Fries, , Coke"` parses to `["Burger", "Fries", "Coke"]` |
| MenuItemsInput.BlankPiecesGiveNoItems | src/pages/OrderForm.tsx:144-147 | `" , "` parses to no items at all |
| CustomerForm.ApplyChange | src/pages/CustomerForm.tsx:84-91 | a checkbox stores its `checked` state in the flag and leaves every text field; a text input stores its raw value in its own field and leaves the flag and every other field |
| CustomerForm.Prefill | src/pages/CustomerForm.tsx:64-74 | names and flag copied verbatim; a missing middle name or address becomes `''`; a missing or empty date becomes `''` and any other date its date part |
| CustomerForm.PrefillDate | src/pages/CustomerForm.tsx:64-71 | a stored timestamp becomes its calendar date in the draft |
| CustomerForm.SaveFailureText | src/pages/CustomerForm.tsx:110-128 | a non-OK status gives `Failed to save customer: <msg>.` with an array message joined by `"; "`; an `Error` rejection gives its message in the same frame; any other rejection gives the unknown-error text |
| CustomerForm.SaveFailureSingleMessage | src/pages/CustomerForm.tsx:110-125 | a failed save whose body lists a single message shows `Failed to save customer: <that message>.`, whatever the status |
| CustomerForm.CustomerFormPage.constructor | src/pages/CustomerForm.tsx:31-44 | create draft of empty texts with the flag set, edit mode from the route id, not loading and no error |
| CustomerForm.CustomerFormPage.View | src/pages/CustomerForm.tsx:134-140 | the loading text exactly while loading in edit mode; the error page exactly when not loading in edit mode with a non-empty error; the editor exactly in create mode or with neither loading nor error, on the current draft, with the error as its only banner when it is non-empty and no banner otherwise |
| CustomerForm.CustomerFormPage.LoadCustomer | src/pages/CustomerForm.tsx:48-82 | create mode: nothing, and the view unchanged while pending; edit mode: GET /customers/{id}, the loading text while pending, then the prefilled draft, or the draft kept and `Failed to load customer: <msg>. Please try again.` shown as the error page; `loading` false at the end |
| CustomerForm.CustomerFormPage.HandleChange | src/pages/CustomerForm.tsx:84-91 | only the draft changes, by `ApplyChange` |
| CustomerForm.CustomerFormPage.HandleSubmit | src/pages/CustomerForm.tsx:93-132 | PATCH /customers/{id} in edit mode, POST /customers otherwise, with the draft as body; while pending, the loading text in edit mode and the editor without banners in create mode; the draft is kept; a success navigates to /customers; a failure sets `Failed to save customer: <msg>.` or the unknown-error text; `loading` false at the end |
| OrderForm.ApplyChange | src/pages/OrderForm.tsx:122-132 | the customer selector stores `parseInt(value, 10)`; every other input stores its raw value in its own field; no other field changes |
| OrderForm.Prefill | src/pages/OrderForm.tsx:98-112 | a missing customer id becomes 0; a stored item list becomes its `", "`-joined text and a missing one `''`; a missing special instruction or payment method becomes `''`; a missing or empty date becomes `''` and any other date its date part |
| OrderForm.Payload | src/pages/OrderForm.tsx:142-152 | the customer id, instructions and payment method are sent as drafted; the items are the split, trimmed and non-empty pieces of the draft's text; a blank date is left out, and any other date is sent |
| OrderForm.PayloadItemsClean | src/pages/OrderForm.tsx:144-147 | every item in the payload is non-empty, comma-free and trimmed |
| OrderForm.ResubmitKeepsItems | src/pages/OrderForm.tsx:107 | saving a loaded order with clean items, without editing them, sends back the same items |
| OrderForm.PreselectedCustomer | src/pages/OrderForm.tsx:64-72 | create mode: an unset id (0) becomes the first option's id, and with no options it stays 0; edit mode: a NaN id becomes the first option's id or 0; a chosen id is never replaced |
| OrderForm.SaveFailureText | src/pages/OrderForm.tsx:163-177 | a non-OK status gives `Failed to save order: <msg>.` with an array message joined by `"; "`; an `Error` rejection gives its message; any other rejection gives `Failed to save order: undefined.` |
| OrderForm.SavingView | src/pages/OrderForm.tsx:183-191 | while a save is in flight: the loading text exactly in edit mode; the editor, without banners, exactly in create mode with the options loaded and no selector error |
| OrderForm.OrderFormPage.constructor | src/pages/OrderForm.tsx:27-44 | an empty draft with customer id 0, edit mode from the route id, nothing loaded |
| OrderForm.OrderFormPage.View | src/pages/OrderForm.tsx:183-191 | the order's loading text exactly while loading in edit mode; otherwise the selector's loading text exactly while the customers load; otherwise an error page exactly for a non-empty edit-mode error, with that error, or else a non-empty selector error, with that one; the editor only when the selector is loaded without error, on the current draft, with the error as its only banner when it is non-empty and no banner otherwise |
| OrderForm.OrderFormPage.LoadCustomers | src/pages/OrderForm.tsx:49-79 | GET /customers; the selector's loading text while pending, unless the order's loading text comes first; a success replaces the options and pre-selects the customer id; a failure keeps both and sets `Failed to load customers: <msg>.`; the selector's loading flag ends false; nothing else changes |
| OrderForm.OrderFormPage.LoadOrder | src/pages/OrderForm.tsx:82-120 | create mode: nothing, and the view unchanged while pending; edit mode: GET /orders/{id}, the loading text while pending, then the prefilled draft, or the draft kept and `Failed to load order: <msg>. Please try again.`; `loading` false at the end |
| OrderForm.OrderFormPage.HandleChange | src/pages/OrderForm.tsx:122-132 | only the draft changes, by `ApplyChange` |
| OrderForm.OrderFormPage.HandleSubmit | src/pages/OrderForm.tsx:134-152 | PATCH /orders/{id} in edit mode, POST /orders otherwise, with the payload built from the draft; the view while pending is `SavingView` of the draft and the selector's state; then the outcome settles the state as `SettleSave` states |
| OrderForm.OrderFormPage.SettleSave | src/pages/OrderForm.tsx:163-180 | the view while pending is `SavingView`; the draft and options are kept; a success navigates to /orders; a failure sets `Failed to save order: <msg>.` with an array message joined by `"; "`; `loading` false at the end |

## Left out

- `fetch`, HTTP, headers and JSON encoding and decoding are not modelled. Each request's outcome is a parameter. The base URL `http://localhost:3000` is a constant, as in the source.
- `window.confirm` is a boolean parameter. `navigate` is modelled as a `location` field.
- React scheduling is not modelled: effect re-runs when dependencies change, the order in which overlapping requests settle, and updates after unmount. Each handler runs to completion in one call. Of the state while its request is pending, only what the page renders then is exposed, as a returned `pending` view.
- `Date` parsing and `toISOString()` are not modelled. A stored date is assumed to be a UTC timestamp as `toISOString()` writes it (ending in `Z`), or a plain date, so that only the `split('T')[0]` step matters. A timestamp with another offset, or with no zone designator (read as local time), can fall on a different calendar day in the source than in this model. The `Date` objects the order form sends are kept as the draft's date text.
- Numbers are unbounded integers or NaN. `parseInt`'s loss of precision beyond 2^53 and `JSON.stringify` of NaN (which sends `null`) are not modelled.
- A truthy `message` that is neither a string nor an array (a number or an object) is not modelled: `MessageField` only covers absent or falsy, string, and array of strings.
- Rendering is not modelled: the table rows, links, buttons and their disabled state, and `console.error`. The views stop at which early return or table is shown, and with which text.
- src/App.tsx (the route table) is not part of this model. A page's route id is a constructor parameter.
- CustomerForm.ApplyChange: the form renders no checkbox, so the checkbox branch is reachable only in principle. The model keeps it as the handler has it.
- OrderForm.PreselectedCustomer: the condition reads the draft's customer id from the effect's closure, while the update reads it from the latest state. The model treats them as the same value, because it does not model interleaving.
- Ids are `int` for customers and `string` for orders, as each list page types them. The generic filter takes the key function as a parameter.
