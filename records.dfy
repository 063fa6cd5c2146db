/** The records the server returns for the two collections, and the one
    transformation both edit forms apply to a stored timestamp. */
module Records {
  import opened JsRuntime

  /** A customer as the list and the edit form receive it. The numeric id is
      assigned by the server. */
  datatype Customer = Customer(
    id: int,
    firstName: string,
    lastName: string,
    middleName: Option<string>,
    email: string,
    dateOfBirth: Option<string>,
    homeAddress: Option<string>,
    isMatricNo_23120112027: bool,
    registeredAt: string,
    createdAt: string,
    updatedAt: string)

  function CustomerKey(c: Customer): int
  {
    c.id
  }

  /** The customer summary embedded in a listed order. */
  datatype OrderCustomer = OrderCustomer(id: string, firstName: string, lastName: string, email: string)

  /** An order as the list receives it; its id is an opaque string. */
  datatype Order = Order(
    id: string,
    customerId: string,
    customer: Option<OrderCustomer>,
    orderDate: string,
    menuItems: seq<string>,
    specialInstructions: Option<string>,
    paymentMethod: Option<string>,
    nextReservationDate: Option<string>,
    createdAt: string,
    updatedAt: string)

  function OrderKey(o: Order): string
  {
    o.id
  }

  /** `iso.split('T')[0]`: the calendar date of an ISO-8601 timestamp, as a
      date input shows it: the text before the first `T`, or all of `iso`
      when it has none. */
  function DatePart(iso: string): (r: string)
    ensures 'T' !in r
    ensures |r| <= |iso| && r == iso[..|r|]
    ensures |r| == |iso| || iso[|r|] == 'T'
  {
    SplitHead(iso, 'T');
    Split(iso, 'T')[0]
  }

  /** The value a date input of an edit form starts with:
      `stored ? new Date(stored).toISOString().split('T')[0] : ''` for a
      stored value that is already an ISO-8601 timestamp. */
  function DateInputValue(stored: Option<string>): (v: string)
    ensures stored == None || stored == Some("") ==> v == ""
    ensures stored.Some? && stored.value != "" ==> v == DatePart(stored.value)
  {
    if stored.Some? && stored.value != "" then DatePart(stored.value) else ""
  }

  /** The date part is exactly the text before the first `T`. */
  lemma DatePartOfTimestamp(date: string, time: string)
    requires 'T' !in date
    ensures DatePart(date + "T" + time) == date
  {
    SplitConcat(date, time, 'T');
    SplitNoSeparator(date, 'T');
  }

  /** A stored date of birth of 1990-05-04 at midnight UTC is shown as the
      plain date. */
  lemma DatePartExample()
    ensures DatePart("1990-05-04T00:00:00.000Z") == "1990-05-04"
  {
    DatePartOfTimestamp("1990-05-04", "00:00:00.000Z");
    assert "1990-05-04" + "T" + "00:00:00.000Z" == "1990-05-04T00:00:00.000Z";
  }
}
