/** The customer list page: the cached customers with the page's `loading`
    and `error` state, the fetch that refreshes the cache, and the guarded
    delete. */
module CustomersList {
  import opened JsRuntime
  import opened Api
  import opened Records
  import opened ListState

  class CustomersListPage {
    var customers: seq<Customer>
    var loading: bool
    var error: Option<string>

    /** The state a freshly mounted page starts from. */
    constructor ()
      ensures customers == [] && !loading && error == None
    {
      customers := [];
      loading := false;
      error := None;
    }

    /** What the page renders from its current state: the loading text
        while loading, otherwise a non-empty error, otherwise the empty text
        or the table of every cached row. */
    function View(): (v: ListView<Customer>)
      reads this
      ensures v.LoadingView? <==> loading
      ensures v.ErrorView? <==> !loading && Shown(error)
      ensures v.ErrorView? ==> error == Some(v.message)
      ensures v.EmptyView? <==> !loading && !Shown(error) && customers == []
      ensures v.TableView? ==> v.rows == customers
    {
      SelectView(loading, error, customers)
    }

    /** `fetchCustomers`, settled by `outcome`: issues GET /customers; a success
        replaces the whole cache, a failure keeps it and records the error.
        `pending` is what the page shows while the request is in flight. */
    method FetchCustomers(outcome: Response<seq<Customer>>) returns (request: Request<()>, pending: ListView<Customer>)
      modifies this
      ensures request == Request(GET, ApiBaseUrl + "/customers", None)
      ensures pending == LoadingView
      ensures !loading
      ensures outcome.Success? ==> customers == outcome.data && error == None
      ensures outcome.Success? ==> View() == if outcome.data == [] then EmptyView else TableView(outcome.data)
      ensures !outcome.Success? ==> customers == old(customers)
      ensures !outcome.Success? ==>
        error == Some("Failed to fetch customers: " + MessageText(Caught(outcome, ErrorConversionSeparator)) + ". Please try again.")
      ensures !outcome.Success? ==> View() == ErrorView(error.value)
    {
      loading := true;
      error := None;
      request := Request(GET, ApiBaseUrl + "/customers", None);
      pending := View();
      if outcome.Success? {
        customers := outcome.data;
      } else {
        error := Some("Failed to fetch customers: " + MessageText(Caught(outcome, ErrorConversionSeparator)) + ". Please try again.");
      }
      loading := false;
    }

    /** `handleDelete(id)`, where `confirmed` is the answer to the
        confirmation dialog and `outcome` settles the DELETE request. Without
        confirmation nothing is requested and nothing changes; a successful
        delete drops exactly the customers carrying `id`; a failed one keeps
        the cache and records the error. */
    method HandleDelete(id: int, confirmed: bool, outcome: Response<()>)
      returns (request: Option<Request<()>>, pending: ListView<Customer>)
      modifies this
      ensures !confirmed ==>
        request == None && customers == old(customers) && loading == old(loading) && error == old(error)
      ensures pending == if confirmed then LoadingView else old(View())
      ensures confirmed ==> request == Some(Request(DELETE, ApiBaseUrl + "/customers/" + IntToString(id), None)) && !loading
      ensures confirmed && outcome.Success? ==> customers == Without(old(customers), CustomerKey, id) && error == None
      ensures confirmed && !outcome.Success? ==>
        customers == old(customers) && error == Some("Failed to delete customer: " + DeleteFailureMessage(outcome))
    {
      pending := View();
      request := None;
      if confirmed {
        loading := true;
        error := None;
        request := Some(Request(DELETE, ApiBaseUrl + "/customers/" + IntToString(id), None));
        pending := View();
        if outcome.Success? {
          customers := Without(customers, CustomerKey, id);
        } else {
          error := Some("Failed to delete customer: " + DeleteFailureMessage(outcome));
        }
        loading := false;
      }
    }
  }
}
