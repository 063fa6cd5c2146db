/** The order form page: a draft order edited field by field, a customer
    selector filled from the server, pre-filled from the stored order in
    edit mode, and saved with POST or PATCH after its menu-items text is
    turned into a list. */
module OrderForm {
  import opened JsRuntime
  import opened Api
  import opened Records
  import opened FormState
  import opened MenuItemsInput

  /** A customer as the selector lists it. */
  datatype CustomerOption = CustomerOption(id: int, firstName: string, lastName: string, email: string)

  /** The draft the form edits. The customer id is a number (NaN when the
      selector's value does not parse); the menu items are one
      comma-separated text. */
  datatype OrderDraft = OrderDraft(
    customerId: Num,
    menuItems: string,
    orderDate: string,
    specialInstructions: string,
    paymentMethod: string,
    nextReservationDate: string)

  /** The inputs of the form, by their `name`. */
  datatype FieldName = CustomerId | MenuItems | OrderDate | SpecialInstructions | PaymentMethod | NextReservationDate

  /** A change event: the input's name and its new raw value. */
  datatype Change = Change(name: FieldName, value: string)

  /** The text a field holds; the customer id is a number, not text. */
  function TextOf(d: OrderDraft, f: FieldName): Option<string>
  {
    match f
    case CustomerId => None
    case MenuItems => Some(d.menuItems)
    case OrderDate => Some(d.orderDate)
    case SpecialInstructions => Some(d.specialInstructions)
    case PaymentMethod => Some(d.paymentMethod)
    case NextReservationDate => Some(d.nextReservationDate)
  }

  /** `handleChange`: the customer selector stores `parseInt(value, 10)`,
      every other input its raw value; no other field moves. */
  function ApplyChange(d: OrderDraft, c: Change): (r: OrderDraft)
    ensures r.customerId == if c.name == CustomerId then ParseInt(c.value) else d.customerId
    ensures c.name != CustomerId ==> TextOf(r, c.name) == Some(c.value)
    ensures forall f :: f != c.name ==> TextOf(r, f) == TextOf(d, f)
  {
    match c.name
    case CustomerId => d.(customerId := ParseInt(c.value))
    case MenuItems => d.(menuItems := c.value)
    case OrderDate => d.(orderDate := c.value)
    case SpecialInstructions => d.(specialInstructions := c.value)
    case PaymentMethod => d.(paymentMethod := c.value)
    case NextReservationDate => d.(nextReservationDate := c.value)
  }

  /** An order as the edit form loads it; the fields the form reads may be
      missing, and `menuItems` may be something other than an array
      (`None`). */
  datatype LoadedOrder = LoadedOrder(
    customerId: Option<int>,
    menuItems: Option<seq<string>>,
    orderDate: Option<string>,
    specialInstructions: Option<string>,
    paymentMethod: Option<string>,
    nextReservationDate: Option<string>)

  /** The draft built from a loaded order: missing values become 0 or "",
      the item list becomes its ", "-joined text, dates their calendar
      date. */
  function Prefill(o: LoadedOrder): (d: OrderDraft)
    ensures o.customerId.None? ==> d.customerId == Int(0)
    ensures o.customerId.Some? ==> d.customerId == Int(o.customerId.value)
    ensures o.menuItems.None? ==> d.menuItems == ""
    ensures o.menuItems.Some? ==> d.menuItems == MenuItemsText(o.menuItems.value)
    ensures o.specialInstructions.None? ==> d.specialInstructions == ""
    ensures o.specialInstructions.Some? ==> d.specialInstructions == o.specialInstructions.value
    ensures o.paymentMethod.None? ==> d.paymentMethod == ""
    ensures o.paymentMethod.Some? ==> d.paymentMethod == o.paymentMethod.value
    ensures o.orderDate == None || o.orderDate == Some("") ==> d.orderDate == ""
    ensures o.orderDate.Some? && o.orderDate.value != "" ==> d.orderDate == DatePart(o.orderDate.value)
    ensures o.nextReservationDate == None || o.nextReservationDate == Some("") ==> d.nextReservationDate == ""
    ensures o.nextReservationDate.Some? && o.nextReservationDate.value != "" ==>
      d.nextReservationDate == DatePart(o.nextReservationDate.value)
  {
    OrderDraft(
      Int(if o.customerId.Some? then o.customerId.value else 0),
      if o.menuItems.Some? then MenuItemsText(o.menuItems.value) else "",
      DateInputValue(o.orderDate),
      if o.specialInstructions.Some? then o.specialInstructions.value else "",
      if o.paymentMethod.Some? then o.paymentMethod.value else "",
      DateInputValue(o.nextReservationDate))
  }

  /** The body of the save request. */
  datatype OrderPayload = OrderPayload(
    customerId: Num,
    menuItems: seq<string>,
    orderDate: Option<string>,
    specialInstructions: string,
    paymentMethod: string,
    nextReservationDate: Option<string>)

  /** `dataToSend`: the draft with its menu-items text parsed into a list and
      each blank date left out. */
  function Payload(d: OrderDraft): (p: OrderPayload)
    ensures p.customerId == d.customerId
    ensures p.menuItems == ParseMenuItems(d.menuItems)
    ensures p.specialInstructions == d.specialInstructions && p.paymentMethod == d.paymentMethod
    ensures p.orderDate.None? <==> d.orderDate == ""
    ensures p.orderDate.Some? ==> p.orderDate.value == d.orderDate
    ensures p.nextReservationDate.None? <==> d.nextReservationDate == ""
    ensures p.nextReservationDate.Some? ==> p.nextReservationDate.value == d.nextReservationDate
  {
    OrderPayload(
      d.customerId,
      ParseMenuItems(d.menuItems),
      if d.orderDate != "" then Some(d.orderDate) else None,
      d.specialInstructions,
      d.paymentMethod,
      if d.nextReservationDate != "" then Some(d.nextReservationDate) else None)
  }

  /** Every item the server receives is non-empty, comma-free and trimmed. */
  lemma PayloadItemsClean(d: OrderDraft)
    ensures forall k :: 0 <= k < |Payload(d).menuItems| ==> IsCleanItem(Payload(d).menuItems[k])
  {
    ParseMenuItemsClean(d.menuItems);
  }

  /** Saving a loaded order without editing its items sends its own items
      back, when each stored item is non-empty, comma-free and trimmed. */
  lemma ResubmitKeepsItems(o: LoadedOrder)
    requires o.menuItems.Some?
    requires forall k :: 0 <= k < |o.menuItems.value| ==> IsCleanItem(o.menuItems.value[k])
    ensures Payload(Prefill(o)).menuItems == o.menuItems.value
  {
    MenuItemsRoundTrip(o.menuItems.value);
  }

  /** The customer id once the selector's options have loaded: in create
      mode an unset id (0) becomes the first option's; in edit mode an id
      that is NaN is replaced by the first option's, or 0. A chosen
      (non-zero) id is never replaced. */
  function PreselectedCustomer(editMode: bool, current: Num, options: seq<CustomerOption>): (r: Num)
    ensures Truthy(current) ==> r == current
    ensures !editMode && current == Int(0) && options != [] ==> r == Int(options[0].id)
    ensures !editMode && (current != Int(0) || options == []) ==> r == current
    ensures editMode && current == Int(0) ==> r == current
    ensures editMode && current == NaN ==>
      r == if options != [] && options[0].id != 0 then Int(options[0].id) else Int(0)
  {
    if !editMode && |options| > 0 && current == Int(0) then Int(options[0].id)
    else if editMode && current != Int(0) then
      (if Truthy(current) then current
       else if |options| > 0 && options[0].id != 0 then Int(options[0].id)
       else Int(0))
    else current
  }

  /** The error text of a failed save: the server's message with an array
      message joined by "; ", or "undefined" for a rejection that is not an
      `Error`. */
  function SaveFailureText(outcome: Response<()>): (r: string)
    requires !outcome.Success?
    ensures outcome.HttpFailure? ==>
      r == "Failed to save order: " + ServerMessage(outcome.status, outcome.body, SaveSeparator) + "."
    ensures outcome.Rejected? && outcome.reason.ErrorObject? ==>
      r == "Failed to save order: " + outcome.reason.message + "."
    ensures outcome == Rejected(NonError) ==> r == "Failed to save order: undefined."
  {
    "Failed to save order: " + MessageText(Caught(outcome, SaveSeparator)) + "."
  }

  /** What the order form shows while a save is in flight: the loading text
      in edit mode; in create mode the selector's state decides, and the
      editor shows no banner because the error was just cleared. */
  function SavingView(editId: Option<int>, draft: OrderDraft, customersLoading: bool,
                      customersError: Option<string>): (v: FormView<OrderDraft>)
    ensures editId.Some? <==> v == LoadingRecord
    ensures v.Editor? ==> v.draft == draft && v.banners == []
    ensures v.Editor? <==> editId.None? && !customersLoading && !Shown(customersError)
  {
    if editId.Some? then LoadingRecord
    else if customersLoading then LoadingOptions
    else if Shown(customersError) then ErrorPage(customersError.value)
    else Editor(draft, [])
  }

  class OrderFormPage {
    const editId: Option<int>
    var formData: OrderDraft
    var customers: seq<CustomerOption>
    var error: Option<string>
    var loading: bool
    var customersLoading: bool
    var customersError: Option<string>
    var location: Option<string>

    /** The page mounted at a route with optional `paramId`: an empty draft
        with customer id 0 and no customers loaded. */
    constructor (paramId: Option<string>)
      ensures editId == EditId(paramId)
      ensures formData == OrderDraft(Int(0), "", "", "", "", "")
      ensures customers == [] && error == None && customersError == None
      ensures !loading && !customersLoading && location == None
    {
      editId := EditId(paramId);
      formData := OrderDraft(Int(0), "", "", "", "", "");
      customers := [];
      error := None;
      loading := false;
      customersLoading := false;
      customersError := None;
      location := None;
    }

    /** The page's early returns in order, then the editor with its error
        banners. */
    function View(): (v: FormView<OrderDraft>)
      reads this
      ensures v == LoadingRecord <==> loading && editId.Some?
      ensures v == LoadingOptions <==> customersLoading && !(loading && editId.Some?)
      ensures v.ErrorPage? <==>
        && !(loading && editId.Some?) && !customersLoading
        && ((Shown(error) && editId.Some?) || Shown(customersError))
      ensures v.ErrorPage? && Shown(error) && editId.Some? ==> v.message == error.value
      ensures v.ErrorPage? && !(Shown(error) && editId.Some?) ==> customersError == Some(v.message)
      ensures v.Editor? ==>
        && !customersLoading && !Shown(customersError)
        && v.draft == formData && v.banners == (if Shown(error) then [error.value] else [])
    {
      if loading && editId.Some? then LoadingRecord
      else if customersLoading then LoadingOptions
      else if Shown(error) && editId.Some? then ErrorPage(error.value)
      else if Shown(customersError) then ErrorPage(customersError.value)
      else Editor(formData, if Shown(error) then [error.value] else [])
    }

    /** The selector's effect, settled by `outcome`: GET /customers; on
        success the options are replaced and the customer id pre-selected,
        on failure the selector's error is recorded. `pending` is what the
        page shows while the request is in flight. */
    method LoadCustomers(outcome: Response<seq<CustomerOption>>)
      returns (request: Request<()>, pending: FormView<OrderDraft>)
      modifies this
      ensures pending == if loading && editId.Some? then LoadingRecord else LoadingOptions
      ensures request == Request(GET, ApiBaseUrl + "/customers", None)
      ensures !customersLoading
      ensures error == old(error) && loading == old(loading) && location == old(location)
      ensures outcome.Success? ==>
        && customers == outcome.data && customersError == None
        && formData == old(formData).(customerId := PreselectedCustomer(editId.Some?, old(formData).customerId, outcome.data))
      ensures !outcome.Success? ==>
        && customers == old(customers) && formData == old(formData)
        && customersError == Some("Failed to load customers: " + MessageText(Caught(outcome, ErrorConversionSeparator)) + ".")
    {
      customersLoading := true;
      customersError := None;
      request := Request(GET, ApiBaseUrl + "/customers", None);
      pending := View();
      if outcome.Success? {
        customers := outcome.data;
        formData := formData.(customerId := PreselectedCustomer(editId.Some?, formData.customerId, outcome.data));
      } else {
        customersError := Some("Failed to load customers: " + MessageText(Caught(outcome, ErrorConversionSeparator)) + ".");
      }
      customersLoading := false;
    }

    /** The edit-mode effect, settled by `outcome`: GET the order and
        pre-fill the draft, or record why it could not be loaded. In create
        mode it does nothing. `pending` is what the page shows while the
        request is in flight. */
    method LoadOrder(outcome: Response<LoadedOrder>)
      returns (request: Option<Request<()>>, pending: FormView<OrderDraft>)
      modifies this
      ensures pending == if editId.Some? then LoadingRecord else old(View())
      ensures customers == old(customers) && customersLoading == old(customersLoading)
      ensures customersError == old(customersError) && location == old(location)
      ensures editId.None? ==>
        request == None && formData == old(formData) && error == old(error) && loading == old(loading)
      ensures editId.Some? ==>
        request == Some(Request(GET, RecordUrl("/orders", editId.value), None)) && !loading
      ensures editId.Some? && outcome.Success? ==> formData == Prefill(outcome.data) && error == None
      ensures editId.Some? && !outcome.Success? ==>
        && formData == old(formData)
        && error == Some("Failed to load order: " + MessageText(Caught(outcome, ErrorConversionSeparator)) + ". Please try again.")
    {
      request := None;
      pending := View();
      if editId.Some? {
        loading := true;
        error := None;
        request := Some(Request(GET, RecordUrl("/orders", editId.value), None));
        pending := View();
        if outcome.Success? {
          formData := Prefill(outcome.data);
        } else {
          error := Some("Failed to load order: " + MessageText(Caught(outcome, ErrorConversionSeparator)) + ". Please try again.");
        }
        loading := false;
      }
    }

    /** `handleChange`: exactly the draft changes, by one field. */
    method HandleChange(c: Change)
      modifies this
      ensures formData == ApplyChange(old(formData), c)
      ensures customers == old(customers) && error == old(error) && loading == old(loading)
      ensures customersLoading == old(customersLoading) && customersError == old(customersError)
      ensures location == old(location)
    {
      formData := ApplyChange(formData, c);
    }

    /** `handleSubmit`, settled by `outcome`: sends the payload built from
        the draft; a success navigates to the list, a failure keeps the
        draft and records the error. `pending` is what the page shows
        meanwhile. */
    method HandleSubmit(outcome: Response<()>)
      returns (request: Request<OrderPayload>, pending: FormView<OrderDraft>)
      modifies this
      ensures request == SaveRequest("/orders", editId, Payload(old(formData)))
      ensures pending == SavingView(editId, old(formData), old(customersLoading), old(customersError))
      ensures formData == old(formData) && customers == old(customers) && !loading
      ensures customersLoading == old(customersLoading) && customersError == old(customersError)
      ensures outcome.Success? ==> location == Some("/orders") && error == None
      ensures !outcome.Success? ==>
        && location == old(location)
        && error == Some(SaveFailureText(outcome))
    {
      request := SaveRequest("/orders", editId, Payload(formData));
      pending := SettleSave(outcome);
    }

    /** The part of `handleSubmit` after the request: the loading flag is
        raised and the old error cleared, then the outcome either navigates
        to the list or records the error, and the flag drops again.
        `pending` is the view between the two. */
    method SettleSave(outcome: Response<()>) returns (pending: FormView<OrderDraft>)
      modifies this
      ensures pending == SavingView(editId, old(formData), old(customersLoading), old(customersError))
      ensures formData == old(formData) && customers == old(customers) && !loading
      ensures customersLoading == old(customersLoading) && customersError == old(customersError)
      ensures outcome.Success? ==> location == Some("/orders") && error == None
      ensures !outcome.Success? ==>
        && location == old(location)
        && error == Some(SaveFailureText(outcome))
    {
      loading := true;
      error := None;
      pending := View();
      if outcome.Success? {
        location := Some("/orders");
      } else {
        error := Some(SaveFailureText(outcome));
      }
      loading := false;
    }
  }
}
