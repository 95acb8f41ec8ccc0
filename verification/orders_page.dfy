/** The orders page: the search over orders and their customers, the
    summary cards, and the modal that edits an order's delivery date and
    status. */
module OrdersPage {
  import opened Basics
  import opened Text
  import opened Listing
  import opened Forms
  import opened Search
  import opened Orders

  /** The customer text fields the search looks at, each as a path from the
      decoded customer: name, email, phone, and the nested address's
      full_address, district and city. */
  function CustomerTexts(user: Option<Json>): (r: seq<Json>)
    ensures |r| == 6
  {
    var address := PropOf(user, "address");
    [PropOf(user, "name"), PropOf(user, "email"), PropOf(user, "phone"),
     Prop(address, "full_address"), Prop(address, "district"), Prop(address, "city")]
  }

  /** An order is kept when its id, written in decimal, contains the term as
      typed, or when a customer text field or the raw products text contains
      the lower-cased term. */
  predicate Matches(o: Order, term: string, parse: Parser) {
    var texts := CustomerTexts(ParseUser(o.user, parse));
    || Contains(NatToString(o.id), term)
    || (exists i :: 0 <= i < |texts| && TextMatches(texts[i], Lower(term)))
    || TextMatches(o.products, Lower(term))
  }

  /** `filteredOrders`: the matching orders in their loaded order; the empty
      term keeps them all. */
  function FilterOrders(orders: seq<Order>, term: string, parse: Parser): (r: seq<Order>)
    ensures Subseq(r, orders)
    ensures forall o :: o in r <==> o in orders && Matches(o, term, parse)
    ensures |r| == CountWhere(orders, (o: Order) => Matches(o, term, parse))
    ensures term == "" ==> r == orders
  {
    assert term == "" ==> (forall i :: 0 <= i < |orders| ==> Matches(orders[i], term, parse)) by {
      if term == "" {
        forall i | 0 <= i < |orders| ensures Matches(orders[i], term, parse) {
          ContainsEmpty(NatToString(orders[i].id));
        }
      }
    }
    Filter(orders, (o: Order) => Matches(o, term, parse))
  }

  /** Searching for an order's number always finds that order. */
  lemma SearchByIdFinds(orders: seq<Order>, o: Order, parse: Parser)
    requires o in orders
    ensures o in FilterOrders(orders, NatToString(o.id), parse)
  {
    ContainsSelf(NatToString(o.id));
  }

  /** A customer whose column does not decode is found only through the
      order's number or its products text. */
  lemma UndecodableCustomerNotSearched(o: Order, term: string, parse: Parser)
    requires o.user.JStr? && parse(o.user.s).None?
    ensures Matches(o, term, parse) <==>
              Contains(NatToString(o.id), term) || TextMatches(o.products, Lower(term))
  {
    var texts := CustomerTexts(ParseUser(o.user, parse));
    assert forall i :: 0 <= i < |texts| ==> texts[i] == JNull;
  }

  /** The four summary cards: number of orders, revenue, pending and
      delivered orders. */
  datatype Summary = Summary(count: nat, revenue: int, pending: nat, delivered: nat)

  function Summarize(orders: seq<Order>): (r: Summary)
    ensures r.count == |orders|
    ensures r.revenue == SumOf(Filter(orders, HasTotal), Amount)
    ensures r.pending == |Filter(orders, (o: Order) => StatusName(o) == JStr("Pending"))|
    ensures r.delivered == |Filter(orders, (o: Order) => StatusName(o) == JStr("Delivered"))|
    ensures r.pending + r.delivered <= r.count
  {
    RevenueOfTotalled(orders);
    StatusCountsDisjoint(orders, "Pending", "Delivered");
    Summary(|orders|, Revenue(orders), StatusCount(orders, "Pending"), StatusCount(orders, "Delivered"))
  }

  /** The edit modal: its form, the order being edited and whether it is
      shown. */
  datatype EditModal = EditModal(form: Record, editing: Option<Order>, open: bool)

  const Closed: EditModal := EditModal(map["delivery_date" := JStr(""), "status_id" := JStr("")], None, false)

  /** `handleEdit`: remember the order and put exactly its delivery date and
      status id into the form. */
  function HandleEdit(m: EditModal, o: Order): (r: EditModal)
    ensures r.open && r.editing == Some(o)
    ensures r.form.Keys == {"delivery_date", "status_id"}
    ensures r.form["delivery_date"] == o.deliveryDate && r.form["status_id"] == o.statusId
  {
    EditModal(map["delivery_date" := o.deliveryDate, "status_id" := o.statusId], Some(o), true)
  }

  /** `handleEditInputChange`: the typed value goes into the named field. */
  function HandleEditInputChange(m: EditModal, ev: InputEvent): (r: EditModal)
    ensures r.editing == m.editing && r.open == m.open
    ensures r.form == ValueChange(m.form, ev)
  {
    m.(form := ValueChange(m.form, ev))
  }

  /** What submitting the modal did. */
  datatype EditSubmitted = EditSubmitted(calls: seq<Call>, modal: EditModal, reload: bool)

  /** `handleEditSubmit`: update the edited order with the form; only when
      the update reports no error is the list reloaded and the modal closed
      and cleared. An error leaves the modal exactly as it was. */
  function HandleEditSubmit(m: EditModal, reply: Option<string>): (r: EditSubmitted)
    requires m.editing.Some?
    ensures r.calls == [Update(JNum(m.editing.value.id), m.form)]
    ensures r.reload <==> reply.None?
    ensures reply.None? ==> !r.modal.open && r.modal.editing.None?
    ensures reply.Some? ==> r.modal == m
  {
    var calls := [Update(JNum(m.editing.value.id), m.form)];
    if reply.None? then EditSubmitted(calls, m.(open := false, editing := None), true)
    else EditSubmitted(calls, m, false)
  }

  /** Opening an order and saving it untouched sends back exactly its
      delivery date and status id. */
  lemma EditThenSaveSendsOnlyTwoFields(m: EditModal, o: Order, reply: Option<string>)
    ensures
      var c := HandleEditSubmit(HandleEdit(m, o), reply).calls[0];
      c.Update? && c.id == JNum(o.id) && c.payload.Keys == {"delivery_date", "status_id"}
      && c.payload["delivery_date"] == o.deliveryDate && c.payload["status_id"] == o.statusId
  {
  }

  /** `handleDelete`: after confirmation, delete; reload only on success. */
  function HandleDelete(id: nat, confirmed: bool, reply: Option<string>): (d: Deletion)
    ensures d == ConfirmedDelete(JNum(id), confirmed, reply, false)
    ensures d.reload <==> confirmed && reply.None?
  {
    ConfirmedDelete(JNum(id), confirmed, reply, false)
  }
}
