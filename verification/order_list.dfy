/** The order list: its search over flat customer fields, its date cells
    and the delete button that marks the order being deleted. */
module OrderList {
  import opened Basics
  import opened Text
  import opened Listing
  import opened Forms
  import opened Search
  import opened Orders

  /** The customer text fields this list searches: name, email, phone and
      the flat address, district and city. */
  function CustomerTexts(user: Option<Json>): (r: seq<Json>)
    ensures |r| == 6
  {
    [PropOf(user, "name"), PropOf(user, "email"), PropOf(user, "phone"),
     PropOf(user, "address"), PropOf(user, "district"), PropOf(user, "city")]
  }

  predicate Matches(o: Order, term: string, parse: Parser) {
    var texts := CustomerTexts(ParseUser(o.user, parse));
    || Contains(NatToString(o.id), term)
    || (exists i :: 0 <= i < |texts| && TextMatches(texts[i], Lower(term)))
    || TextMatches(o.products, Lower(term))
  }

  /** `filteredOrders`: the matching orders in their loaded order; the empty
      term keeps them all. */
  function FilterOrders(orders: seq<Order>, term: string, parse: Parser): (r: seq<Order>)
    ensures Subseq(r, orders)
    ensures forall o :: o in r <==> o in orders && Matches(o, term, parse)
    ensures |r| == CountWhere(orders, (o: Order) => Matches(o, term, parse))
    ensures term == "" ==> r == orders
  {
    assert term == "" ==> (forall i :: 0 <= i < |orders| ==> Matches(orders[i], term, parse)) by {
      if term == "" {
        forall i | 0 <= i < |orders| ensures Matches(orders[i], term, parse) {
          ContainsEmpty(NatToString(orders[i].id));
        }
      }
    }
    Filter(orders, (o: Order) => Matches(o, term, parse))
  }

  /** The model reads an address object (the nested shape the orders page
      displays) as no match. The list itself calls `toLowerCase` on it and
      throws whenever id, name, email and phone have not matched; that
      failure is not modelled. */
  lemma NestedAddressNotSearched(o: Order, term: string, parse: Parser)
    requires PropOf(ParseUser(o.user, parse), "address").JObject?
    ensures !TextMatches(PropOf(ParseUser(o.user, parse), "address"), Lower(term))
  {
  }

  /** The customer cell: name, else email, else 'N/A'. */
  function CustomerName(o: Order, parse: Parser): (r: Json)
    ensures Truthy(r)
    ensures r == DisplayName(ParseUser(o.user, parse), "N/A")
  {
    DisplayNameShown(ParseUser(o.user, parse), "N/A");
    DisplayName(ParseUser(o.user, parse), "N/A")
  }

  /** `formatDate` and `formatDateTime`: 'N/A' for an empty date, otherwise
      the locale rendering `format` gives. */
  function FormatDate(date: Json, format: Json -> string): (r: string)
    ensures !Truthy(date) ==> r == "N/A"
    ensures Truthy(date) ==> r == format(date)
  {
    if !Truthy(date) then "N/A" else format(date)
  }

  /** With a locale rendering that never writes 'N/A' itself, the
      placeholder shows exactly for an empty date. */
  lemma FormatDatePlaceholderIff(date: Json, format: Json -> string)
    requires forall d :: format(d) != "N/A"
    ensures FormatDate(date, format) == "N/A" <==> !Truthy(date)
  {
  }

  /** What a delete did: the calls, whether the list reloaded, the values
      `deletingId` took in turn, and its value afterwards. */
  datatype ListDeletion = ListDeletion(deletion: Deletion, marks: seq<Option<nat>>, deletingId: Option<nat>)

  /** `handleDelete`: after confirmation, mark the order as being deleted,
      delete it, reload only on success, and clear the mark whatever the
      outcome. Without confirmation nothing changes. */
  function HandleDelete(deletingId: Option<nat>, id: nat, confirmed: bool, reply: Option<string>): (r: ListDeletion)
    ensures r.deletion.reload <==> confirmed && reply.None?
    ensures confirmed ==> r.deletion.calls == [Delete(JNum(id))] && r.marks == [Some(id), None] && r.deletingId.None?
    ensures !confirmed ==> r.deletion.calls == [] && r.marks == [] && r.deletingId == deletingId
  {
    var d := ConfirmedDelete(JNum(id), confirmed, reply, false);
    if confirmed then ListDeletion(d, [Some(id), None], None)
    else ListDeletion(d, [], deletingId)
  }

  /** Whatever the reply, a confirmed delete leaves no order marked, and the
      mark named the order during the call. */
  lemma DeleteClearsMark(deletingId: Option<nat>, id: nat, reply: Option<string>)
    ensures HandleDelete(deletingId, id, true, reply).deletingId.None?
    ensures HandleDelete(deletingId, id, true, reply).marks[0] == Some(id)
  {
  }

  /** The revenue card: `parseFloat(order.total) || 0` summed. */
  function RevenueCard(orders: seq<Order>, parseNumber: NumberParser): (r: int)
    ensures (forall i :: 0 <= i < |orders| ==> !orders[i].total.JStr?) ==> r == Revenue(orders)
  {
    var r := ParsedRevenue(orders, parseNumber);
    assert (forall i :: 0 <= i < |orders| ==> !orders[i].total.JStr?) ==> r == Revenue(orders) by {
      if forall i :: 0 <= i < |orders| ==> !orders[i].total.JStr? {
        RevenuesAgree(orders, parseNumber);
      }
    }
    r
  }

  /** The card over two lists of orders is the sum of the two cards. */
  lemma RevenueCardAppend(a: seq<Order>, b: seq<Order>, parseNumber: NumberParser)
    ensures RevenueCard(a + b, parseNumber) == RevenueCard(a, parseNumber) + RevenueCard(b, parseNumber)
  {
    SumOfAppend(a, b, (o: Order) => NumberOr0(o.total, parseNumber));
  }

  /** An order whose total is a text adds the number `parseFloat` reads
      from it, or nothing when the text does not start with a number; an
      order with a numeric total adds that total. */
  lemma RevenueCardAddsOrder(orders: seq<Order>, o: Order, parseNumber: NumberParser)
    ensures o.total.JStr? && parseNumber(o.total.s).Some? ==>
              RevenueCard(orders + [o], parseNumber) == RevenueCard(orders, parseNumber) + parseNumber(o.total.s).value
    ensures o.total.JStr? && parseNumber(o.total.s).None? ==>
              RevenueCard(orders + [o], parseNumber) == RevenueCard(orders, parseNumber)
    ensures o.total.JNum? ==> RevenueCard(orders + [o], parseNumber) == RevenueCard(orders, parseNumber) + o.total.n
  {
    RevenueCardAppend(orders, [o], parseNumber);
    var amount := (x: Order) => NumberOr0(x.total, parseNumber);
    assert [o][1..] == [];
    assert SumOf([o], amount) == amount(o) + SumOf([o][1..], amount);
    assert RevenueCard([o], parseNumber) == ParsedRevenue([o], parseNumber);
  }
}
