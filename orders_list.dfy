/** The order list page: the cached orders with the page's `loading` and
    `error` state, the fetch that refreshes the cache, and the guarded
    delete. */
module OrdersList {
  import opened JsRuntime
  import opened Api
  import opened Records
  import opened ListState

  class OrdersListPage {
    var orders: seq<Order>
    var loading: bool
    var error: Option<string>

    /** The state a freshly mounted page starts from. */
    constructor ()
      ensures orders == [] && !loading && error == None
    {
      orders := [];
      loading := false;
      error := None;
    }

    /** What the page renders from its current state: the loading text
        while loading, otherwise a non-empty error, otherwise the empty text
        or the table of every cached row. */
    function View(): (v: ListView<Order>)
      reads this
      ensures v.LoadingView? <==> loading
      ensures v.ErrorView? <==> !loading && Shown(error)
      ensures v.ErrorView? ==> error == Some(v.message)
      ensures v.EmptyView? <==> !loading && !Shown(error) && orders == []
      ensures v.TableView? ==> v.rows == orders
    {
      SelectView(loading, error, orders)
    }

    /** `fetchOrders`, settled by `outcome`: issues GET /orders; a success
        replaces the whole cache, a failure keeps it and records the error.
        `pending` is what the page shows while the request is in flight. */
    method FetchOrders(outcome: Response<seq<Order>>) returns (request: Request<()>, pending: ListView<Order>)
      modifies this
      ensures request == Request(GET, ApiBaseUrl + "/orders", None)
      ensures pending == LoadingView
      ensures !loading
      ensures outcome.Success? ==> orders == outcome.data && error == None
      ensures outcome.Success? ==> View() == if outcome.data == [] then EmptyView else TableView(outcome.data)
      ensures !outcome.Success? ==> orders == old(orders)
      ensures !outcome.Success? ==>
        error == Some("Failed to fetch orders: " + MessageText(Caught(outcome, ErrorConversionSeparator)) + ". Please try again.")
      ensures !outcome.Success? ==> View() == ErrorView(error.value)
    {
      loading := true;
      error := None;
      request := Request(GET, ApiBaseUrl + "/orders", None);
      pending := View();
      if outcome.Success? {
        orders := outcome.data;
      } else {
        error := Some("Failed to fetch orders: " + MessageText(Caught(outcome, ErrorConversionSeparator)) + ". Please try again.");
      }
      loading := false;
    }

    /** `handleDelete(id)`, where `confirmed` is the answer to the
        confirmation dialog and `outcome` settles the DELETE request. Without
        confirmation nothing is requested and nothing changes; a successful
        delete drops exactly the orders carrying `id`; a failed one keeps
        the cache and records the error. */
    method HandleDelete(id: string, confirmed: bool, outcome: Response<()>)
      returns (request: Option<Request<()>>, pending: ListView<Order>)
      modifies this
      ensures !confirmed ==>
        request == None && orders == old(orders) && loading == old(loading) && error == old(error)
      ensures pending == if confirmed then LoadingView else old(View())
      ensures confirmed ==> request == Some(Request(DELETE, ApiBaseUrl + "/orders/" + id, None)) && !loading
      ensures confirmed && outcome.Success? ==> orders == Without(old(orders), OrderKey, id) && error == None
      ensures confirmed && !outcome.Success? ==>
        orders == old(orders) && error == Some("Failed to delete order: " + DeleteFailureMessage(outcome))
    {
      pending := View();
      request := None;
      if confirmed {
        loading := true;
        error := None;
        request := Some(Request(DELETE, ApiBaseUrl + "/orders/" + id, None));
        pending := View();
        if outcome.Success? {
          orders := Without(orders, OrderKey, id);
        } else {
          error := Some("Failed to delete order: " + DeleteFailureMessage(outcome));
        }
        loading := false;
      }
    }
  }
}
