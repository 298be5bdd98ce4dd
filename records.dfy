/** The participant record as `register` inserts it and as `confirm_payment`
    reads it back from the participants table. */
module Records {
  import opened Common

  /** One entry of `selected_events`; only its `name` is ever read. */
  datatype Event = Event(name: string)

  datatype PaymentStatus = Pending | Paid

  /** The columns `register` inserts. Name, email, phone and college are
      passed through as the request gave them; amount is the request's
      `total`. */
  datatype Row = Row(
    name: Option<string>,
    email: Option<string>,
    phone: Option<string>,
    college: Option<string>,
    selectedEvents: seq<Event>,
    teamName: Option<string>,
    teamCode: Option<string>,
    food: Option<string>,
    amount: Option<int>,
    paymentStatus: PaymentStatus)

  /** A stored participant: the inserted row plus the identifier the
      datastore assigns. */
  datatype Participant = Participant(id: string, row: Row)
}
