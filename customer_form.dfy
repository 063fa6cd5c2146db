/** The customer form page: a draft customer edited field by field,
    pre-filled from the server in edit mode, and saved with POST or PATCH. */
module CustomerForm {
  import opened JsRuntime
  import opened Api
  import opened Records
  import opened FormState

  /** The draft the form edits, which is also the body it sends. */
  datatype CustomerDraft = CustomerDraft(
    firstName: string,
    lastName: string,
    middleName: string,
    dateOfBirth: string,
    homeAddress: string,
    isMatricNo_23120112027: bool)

  /** The text inputs of the form, by their `name`. */
  datatype TextField = FirstName | LastName | MiddleName | DateOfBirth | HomeAddress

  /** A change event: a text input with its new value, or the flag's
      checkbox with its new `checked` state. */
  datatype Change = TextInput(field: TextField, value: string) | CheckboxInput(checked: bool)

  function FieldText(d: CustomerDraft, f: TextField): string
  {
    match f
    case FirstName => d.firstName
    case LastName => d.lastName
    case MiddleName => d.middleName
    case DateOfBirth => d.dateOfBirth
    case HomeAddress => d.homeAddress
  }

  /** `handleChange`: a checkbox stores its boolean state in the flag, any
      other input stores its raw value in its own field; nothing else moves. */
  function ApplyChange(d: CustomerDraft, c: Change): (r: CustomerDraft)
    ensures c.CheckboxInput? ==>
      r.isMatricNo_23120112027 == c.checked && forall f :: FieldText(r, f) == FieldText(d, f)
    ensures c.TextInput? ==>
      && r.isMatricNo_23120112027 == d.isMatricNo_23120112027
      && FieldText(r, c.field) == c.value
      && forall f :: f != c.field ==> FieldText(r, f) == FieldText(d, f)
  {
    match c
    case CheckboxInput(checked) => d.(isMatricNo_23120112027 := checked)
    case TextInput(FirstName, v) => d.(firstName := v)
    case TextInput(LastName, v) => d.(lastName := v)
    case TextInput(MiddleName, v) => d.(middleName := v)
    case TextInput(DateOfBirth, v) => d.(dateOfBirth := v)
    case TextInput(HomeAddress, v) => d.(homeAddress := v)
  }

  /** The draft built from a loaded customer: names and flag copied, a
      missing middle name or address shown as empty, the date of birth cut
      to its calendar date. */
  function Prefill(c: Customer): (d: CustomerDraft)
    ensures d.firstName == c.firstName && d.lastName == c.lastName
    ensures d.isMatricNo_23120112027 == c.isMatricNo_23120112027
    ensures c.middleName.None? ==> d.middleName == ""
    ensures c.middleName.Some? ==> d.middleName == c.middleName.value
    ensures c.homeAddress.None? ==> d.homeAddress == ""
    ensures c.homeAddress.Some? ==> d.homeAddress == c.homeAddress.value
    ensures c.dateOfBirth == None || c.dateOfBirth == Some("") ==> d.dateOfBirth == ""
    ensures c.dateOfBirth.Some? && c.dateOfBirth.value != "" ==> d.dateOfBirth == DatePart(c.dateOfBirth.value)
  {
    CustomerDraft(
      c.firstName,
      c.lastName,
      if c.middleName.Some? then c.middleName.value else "",
      DateInputValue(c.dateOfBirth),
      if c.homeAddress.Some? then c.homeAddress.value else "",
      c.isMatricNo_23120112027)
  }

  /** A stored date of birth with a time of day is shown as its date. */
  lemma PrefillDate(c: Customer, date: string, time: string)
    requires 'T' !in date
    requires c.dateOfBirth == Some(date + "T" + time)
    ensures Prefill(c).dateOfBirth == date
  {
    DatePartOfTimestamp(date, time);
  }

  /** The error text of a failed save: the server's message, an array
      message joined by "; ", or the unknown-error text for a rejection
      that is not an `Error`. */
  function SaveFailureText(outcome: Response<()>): (r: string)
    requires !outcome.Success?
    ensures outcome.HttpFailure? ==>
      r == "Failed to save customer: " + ServerMessage(outcome.status, outcome.body, SaveSeparator) + "."
    ensures outcome.Rejected? && outcome.reason.ErrorObject? ==>
      r == "Failed to save customer: " + outcome.reason.message + "."
    ensures outcome == Rejected(NonError) ==> r == "Failed to save customer: An unknown error occurred."
  {
    match Caught(outcome, SaveSeparator)
    case ErrorObject(m) => "Failed to save customer: " + m + "."
    case NonError => "Failed to save customer: An unknown error occurred."
  }

  /** A failed save whose body lists a single validation message shows
      that message as it is, between the prefix and the full stop. */
  lemma SaveFailureSingleMessage(status: nat, line: string)
    ensures SaveFailureText(HttpFailure(status, Parsed(Lines([line]))))
         == "Failed to save customer: " + line + "."
  {
    var outcome: Response<()> := HttpFailure(status, Parsed(Lines([line])));
    assert Join([line], SaveSeparator) == line;
    assert Caught(outcome, SaveSeparator) == ErrorObject(line);
  }

  class CustomerFormPage {
    const editId: Option<int>
    var formData: CustomerDraft
    var error: Option<string>
    var loading: bool
    var location: Option<string>

    /** The page mounted at a route with optional `paramId`: create mode
        starts from empty text and the flag set. */
    constructor (paramId: Option<string>)
      ensures editId == EditId(paramId)
      ensures formData == CustomerDraft("", "", "", "", "", true)
      ensures error == None && !loading && location == None
    {
      editId := EditId(paramId);
      formData := CustomerDraft("", "", "", "", "", true);
      error := None;
      loading := false;
      location := None;
    }

    /** The page's early returns in edit mode, then the editor with the
        error as a banner. */
    function View(): (v: FormView<CustomerDraft>)
      reads this
      ensures v == LoadingRecord <==> loading && editId.Some?
      ensures v.ErrorPage? <==> editId.Some? && !loading && Shown(error)
      ensures v.ErrorPage? ==> error == Some(v.message)
      ensures !v.LoadingOptions?
      ensures v.Editor? <==> editId.None? || (!loading && !Shown(error))
      ensures v.Editor? ==> v.draft == formData && v.banners == (if Shown(error) then [error.value] else [])
    {
      if loading && editId.Some? then LoadingRecord
      else if Shown(error) && editId.Some? then ErrorPage(error.value)
      else Editor(formData, if Shown(error) then [error.value] else [])
    }

    /** The edit-mode effect, settled by `outcome`: GET the customer and
        pre-fill the draft, or record why it could not be loaded. In create
        mode it does nothing. `pending` is what the page shows while the
        request is in flight. */
    method LoadCustomer(outcome: Response<Customer>)
      returns (request: Option<Request<()>>, pending: FormView<CustomerDraft>)
      modifies this
      ensures pending == if editId.Some? then LoadingRecord else old(View())
      ensures editId.None? ==>
        request == None && formData == old(formData) && error == old(error) && loading == old(loading)
      ensures location == old(location)
      ensures editId.Some? ==>
        request == Some(Request(GET, RecordUrl("/customers", editId.value), None)) && !loading
      ensures editId.Some? && outcome.Success? ==> formData == Prefill(outcome.data) && error == None
      ensures editId.Some? && !outcome.Success? ==>
        && formData == old(formData)
        && error == Some("Failed to load customer: " + MessageText(Caught(outcome, ErrorConversionSeparator)) + ". Please try again.")
        && View() == ErrorPage(error.value)
    {
      request := None;
      pending := View();
      if editId.Some? {
        loading := true;
        error := None;
        request := Some(Request(GET, RecordUrl("/customers", editId.value), None));
        pending := View();
        if outcome.Success? {
          formData := Prefill(outcome.data);
        } else {
          error := Some("Failed to load customer: " + MessageText(Caught(outcome, ErrorConversionSeparator)) + ". Please try again.");
        }
        loading := false;
      }
    }

    /** `handleChange`: exactly the draft changes, by one field. */
    method HandleChange(c: Change)
      modifies this
      ensures formData == ApplyChange(old(formData), c)
      ensures error == old(error) && loading == old(loading) && location == old(location)
    {
      formData := ApplyChange(formData, c);
    }

    /** `handleSubmit`, settled by `outcome`: sends the draft unchanged; a
        success navigates to the list, a failure keeps the draft and
        records the error. `pending` is what the page shows meanwhile. */
    method HandleSubmit(outcome: Response<()>)
      returns (request: Request<CustomerDraft>, pending: FormView<CustomerDraft>)
      modifies this
      ensures request == SaveRequest("/customers", editId, old(formData))
      ensures pending == if editId.Some? then LoadingRecord else Editor(old(formData), [])
      ensures formData == old(formData) && !loading
      ensures outcome.Success? ==> location == Some("/customers") && error == None
      ensures !outcome.Success? ==> location == old(location) && error == Some(SaveFailureText(outcome))
    {
      loading := true;
      error := None;
      request := SaveRequest("/customers", editId, formData);
      pending := View();
      if outcome.Success? {
        location := Some("/customers");
      } else {
        error := Some(SaveFailureText(outcome));
      }
      loading := false;
    }
  }
}
