/** An order as the orders table returns it, and what the order views
    derive from one: the decoded customer, its display name, the status
    badge, the decoded product list, the address line and the amount an
    order adds to the revenue. */
module Orders {
  import opened Basics
  import opened Text
  import opened Listing

  /** A row of the orders table with its joined status. `user` and
      `products` hold either a JSON text or an already decoded value;
      `createdAt` is a timestamp in milliseconds. */
  datatype Order = Order(
    id: nat,
    user: Json,
    products: Json,
    total: Json,
    status: Json,
    statusId: Json,
    deliveryDate: Json,
    createdAt: int)

  /** `JSON.parse`: None when the text is not valid JSON (the call throws). */
  type Parser = string -> Option<Json>

  /** `parseUser`: no customer for a falsy column or a text that does not
      parse; a text is decoded, any other value is taken as it is. */
  function ParseUser(raw: Json, parse: Parser): (r: Option<Json>)
    ensures !Truthy(raw) ==> r.None?
    ensures Truthy(raw) && raw.JStr? ==> r == parse(raw.s)
    ensures Truthy(raw) && !raw.JStr? ==> r == Some(raw)
    ensures r.None? <==> !Truthy(raw) || (raw.JStr? && parse(raw.s).None?)
  {
    if !Truthy(raw) then None
    else if raw.JStr? then parse(raw.s)
    else Some(raw)
  }

  /** A customer reads back as itself whether the column holds it as JSON
      text written by an encoder that `parse` inverts or as the already
      decoded object. */
  lemma ParseUserRoundTrip(user: Json, encode: Json -> string, parse: Parser)
    requires parse(encode(user)) == Some(user)
    requires encode(user) != ""
    ensures ParseUser(JStr(encode(user)), parse) == Some(user)
    ensures user.JObject? ==> ParseUser(user, parse) == Some(user)
  {
  }

  /** `user?.name || user?.email || fallback`. */
  function DisplayName(user: Option<Json>, fallback: string): (r: Json)
    ensures Truthy(PropOf(user, "name")) ==> r == PropOf(user, "name")
    ensures !Truthy(PropOf(user, "name")) && Truthy(PropOf(user, "email")) ==> r == PropOf(user, "email")
    ensures !Truthy(PropOf(user, "name")) && !Truthy(PropOf(user, "email")) ==> r == JStr(fallback)
  {
    Or(PropOf(user, "name"), Or(PropOf(user, "email"), JStr(fallback)))
  }

  /** A display name is never blank when the fallback is not, and the
      fallback shows exactly when the customer has neither name nor email. */
  lemma DisplayNameShown(user: Option<Json>, fallback: string)
    requires fallback != ""
    ensures Truthy(DisplayName(user, fallback))
    ensures DisplayName(user, fallback) == JStr(fallback) <==>
              (!Truthy(PropOf(user, "name")) || PropOf(user, "name") == JStr(fallback))
              && (Truthy(PropOf(user, "name")) || !Truthy(PropOf(user, "email")) || PropOf(user, "email") == JStr(fallback))
  {
  }

  /** A customer whose column does not decode is shown under the fallback. */
  lemma UndecodableUserShowsFallback(raw: Json, parse: Parser, fallback: string)
    requires raw.JStr? && raw.s != "" && parse(raw.s).None?
    ensures DisplayName(ParseUser(raw, parse), fallback) == JStr(fallback)
  {
  }

  /** The five status names the tables know. */
  const KnownStatuses: set<string> := {"Pending", "Processing", "Shipped", "Delivered", "Cancelled"}

  const StatusClasses: map<string, string> := map[
    "Pending" := "status-pending", "Processing" := "status-processing", "Shipped" := "status-shipped",
    "Delivered" := "status-delivered", "Cancelled" := "status-cancelled"]

  const StatusLabels: map<string, string> := map[
    "Pending" := "Beklemede", "Processing" := "İşleniyor", "Shipped" := "Kargoda",
    "Delivered" := "Teslim Edildi", "Cancelled" := "İptal Edildi"]

  /** `getStatusClass`: the badge class of a known status name, and
      'status-pending' for anything else. */
  function StatusClass(name: Json): (r: string)
    ensures r in {"status-pending", "status-processing", "status-shipped", "status-delivered", "status-cancelled"}
    ensures name.JStr? && name.s in KnownStatuses ==> r == StatusClasses[name.s]
    ensures r == "status-pending" <==> !(name.JStr? && name.s in KnownStatuses - {"Pending"})
  {
    if name.JStr? && name.s in StatusClasses then StatusClasses[name.s] else "status-pending"
  }

  /** `getStatusDisplayName`: the Turkish label of a known status name; any
      other value is shown as it is. */
  function StatusLabel(name: Json): (r: Json)
    ensures name.JStr? && name.s in KnownStatuses ==> r == JStr(StatusLabels[name.s])
    ensures r == name <==> !(name.JStr? && name.s in KnownStatuses)
  {
    if name.JStr? && name.s in StatusLabels then JStr(StatusLabels[name.s]) else name
  }

  /** `order.status?.name`. */
  function StatusName(o: Order): Json {
    Prop(o.status, "name")
  }

  /** The status badge of an order's row: the status name, read as
      'Pending' when missing, picks the class; the status's own display
      name, when set, wins over the table's label. */
  function Badge(o: Order): (r: (string, Json))
    ensures !Truthy(StatusName(o)) ==> r.0 == "status-pending"
    ensures Truthy(StatusName(o)) ==> r.0 == StatusClass(StatusName(o))
    ensures Truthy(Prop(o.status, "display_name")) ==> r.1 == Prop(o.status, "display_name")
    ensures !Truthy(Prop(o.status, "display_name")) && !Truthy(StatusName(o)) ==> r.1 == JStr("Beklemede")
    ensures !Truthy(Prop(o.status, "display_name")) && StatusName(o).JStr? && StatusName(o).s in KnownStatuses ==>
              r.1 == JStr(StatusLabels[StatusName(o).s])
    ensures !Truthy(Prop(o.status, "display_name")) && Truthy(StatusName(o)) ==> r.1 == StatusLabel(StatusName(o))
  {
    var name := Or(StatusName(o), JStr("Pending"));
    (StatusClass(name), Or(Prop(o.status, "display_name"), StatusLabel(name)))
  }

  /** `parseProducts`: the decoded product array, or no products for a
      falsy column, a text that does not parse, or a value that is not an
      array. */
  function ParseProducts(raw: Json, parse: Parser): (r: seq<Json>)
    ensures !Truthy(raw) ==> r == []
    ensures raw.JArray? ==> r == raw.items
    ensures raw.JStr? && raw.s != "" && parse(raw.s).None? ==> r == []
    ensures raw.JStr? && raw.s != "" && parse(raw.s).Some? && parse(raw.s).value.JArray? ==> r == parse(raw.s).value.items
    ensures raw.JStr? && parse(raw.s).Some? && !parse(raw.s).value.JArray? ==> r == []
    ensures raw.JObject? ==> r == []
  {
    var decoded := if !Truthy(raw) then None else if raw.JStr? then parse(raw.s) else Some(raw);
    if decoded.Some? && decoded.value.JArray? then decoded.value.items else []
  }

  /** A product list stored as JSON text by an encoder that `parse` inverts
      decodes back to the same list. */
  lemma ProductsRoundTrip(items: seq<Json>, encode: Json -> string, parse: Parser)
    requires parse(encode(JArray(items))) == Some(JArray(items))
    requires encode(JArray(items)) != ""
    ensures ParseProducts(JStr(encode(JArray(items))), parse) == items
  {
  }

  /** The parts of an address line, in display order. */
  const AddressKeys: seq<string> := ["full_address", "district", "city", "postal_code", "country"]

  /** The given properties of a value, in order: `[v.a, v.b, ...]`. */
  function Props(v: Json, keys: seq<string>): (r: seq<Json>)
    ensures |r| == |keys|
    ensures forall i :: 0 <= i < |keys| ==> r[i] == Prop(v, keys[i])
  {
    seq(|keys|, i requires 0 <= i < |keys| => Prop(v, keys[i]))
  }

  /** The truthy values among the given properties of a value, in order. */
  function TruthyParts(v: Json, keys: seq<string>): (r: seq<Json>)
    ensures |r| <= |keys|
    ensures forall i :: 0 <= i < |r| ==> Truthy(r[i])
    ensures Subseq(r, Props(v, keys))
    ensures |r| == CountWhere(Props(v, keys), Truthy)
    ensures forall i :: 0 <= i < |keys| && Truthy(Prop(v, keys[i])) ==> Prop(v, keys[i]) in r
  {
    var all := Props(v, keys);
    assert forall i :: 0 <= i < |keys| ==> all[i] in all;
    Filter(all, Truthy)
  }

  /** The text of each part, as `join` writes it. */
  function Shown(parts: seq<Json>): (r: seq<string>)
    ensures |r| == |parts|
    ensures forall i :: 0 <= i < |parts| ==> r[i] == Display(parts[i])
  {
    if |parts| == 0 then [] else [Display(parts[0])] + Shown(parts[1..])
  }

  /** The line read left to right over the values: a falsy value is
      skipped, and a set value writes its text, followed by ', ' and the
      rest of the line when some later value is set. */
  function PartsLine(vs: seq<Json>): string {
    if |vs| == 0 then ""
    else if !Truthy(vs[0]) then PartsLine(vs[1..])
    else if CountWhere(vs[1..], Truthy) == 0 then Display(vs[0])
    else Display(vs[0]) + ", " + PartsLine(vs[1..])
  }

  /** Filtering the truthy values and joining their texts with ', ' is the
      left-to-right reading. */
  lemma {:induction false} JoinedFilterIsPartsLine(vs: seq<Json>)
    ensures Join(Shown(Filter(vs, Truthy)), ", ") == PartsLine(vs)
  {
    if |vs| > 0 {
      JoinedFilterIsPartsLine(vs[1..]);
      var rest := Filter(vs[1..], Truthy);
      if Truthy(vs[0]) {
        assert Filter(vs, Truthy) == [vs[0]] + rest;
        assert Shown([vs[0]] + rest) == [Display(vs[0])] + Shown(rest);
        if CountWhere(vs[1..], Truthy) != 0 {
          assert ([Display(vs[0])] + Shown(rest))[1..] == Shown(rest);
        }
      }
    }
  }

  /** The address line: the set parts of the address joined by ', '. */
  function AddressLine(address: Json): (r: string)
    ensures !address.JObject? ==> r == ""
    ensures r == PartsLine(Props(address, AddressKeys))
  {
    JoinedFilterIsPartsLine(Props(address, AddressKeys));
    Join(Shown(TruthyParts(address, AddressKeys)), ", ")
  }

  /** A set text or number part is never shown as blank, so the line is
      empty exactly when the address has no set part, and a line of one
      part is that part. (An empty array is truthy but written as the empty
      string, hence the exclusion.) */
  lemma AddressLineEmptyIff(address: Json)
    requires forall i :: 0 <= i < |AddressKeys| ==> !Prop(address, AddressKeys[i]).JArray?
    ensures AddressLine(address) == "" <==> TruthyParts(address, AddressKeys) == []
    ensures |TruthyParts(address, AddressKeys)| == 1 ==>
              AddressLine(address) == Display(TruthyParts(address, AddressKeys)[0])
  {
    var parts := TruthyParts(address, AddressKeys);
    var shown := Shown(parts);
    forall i | 0 <= i < |shown|
      ensures shown[i] != ""
    {
      assert parts[i] in parts;
      DisplayOfTruthy(parts[i]);
    }
    JoinEmptyIff(shown, ", ");
  }

  /** An address with exactly two set parts shows them in key order,
      separated by ', '. */
  lemma AddressLineTwoParts(address: Json, i: nat, j: nat)
    requires i < j < |AddressKeys|
    requires Truthy(Prop(address, AddressKeys[i])) && Truthy(Prop(address, AddressKeys[j]))
    requires forall k :: 0 <= k < |AddressKeys| && k != i && k != j ==> !Truthy(Prop(address, AddressKeys[k]))
    ensures AddressLine(address) ==
              Display(Prop(address, AddressKeys[i])) + ", " + Display(Prop(address, AddressKeys[j]))
  {
    FilterOnlyTwo(Props(address, AddressKeys), Truthy, i, j);
  }

  /** With every part set the line lists all five, in key order. */
  lemma AddressLineAllParts(address: Json)
    requires forall k :: 0 <= k < |AddressKeys| ==> Truthy(Prop(address, AddressKeys[k]))
    ensures AddressLine(address) ==
              Display(Prop(address, "full_address")) + ", " + (Display(Prop(address, "district")) + ", "
              + (Display(Prop(address, "city")) + ", " + (Display(Prop(address, "postal_code")) + ", "
              + Display(Prop(address, "country")))))
  {
    var p0, p1, p2 := Prop(address, "full_address"), Prop(address, "district"), Prop(address, "city");
    var p3, p4 := Prop(address, "postal_code"), Prop(address, "country");
    assert TruthyParts(address, AddressKeys) == [p0, p1, p2, p3, p4] by {
      AddressProps(address);
    }
    ShownFive(p0, p1, p2, p3, p4);
    JoinFive(Display(p0), Display(p1), Display(p2), Display(p3), Display(p4), ", ");
  }

  /** The address parts, property by property. */
  lemma AddressProps(address: Json)
    ensures Props(address, AddressKeys) == [Prop(address, "full_address"), Prop(address, "district"),
              Prop(address, "city"), Prop(address, "postal_code"), Prop(address, "country")]
  {
  }

  /** The displayed text of five parts. */
  lemma ShownFive(p0: Json, p1: Json, p2: Json, p3: Json, p4: Json)
    ensures Shown([p0, p1, p2, p3, p4]) == [Display(p0), Display(p1), Display(p2), Display(p3), Display(p4)]
  {
  }

  /** A truthy value is never written as the empty string. */
  lemma DisplayOfTruthy(v: Json)
    requires Truthy(v) && !v.JArray?
    ensures Display(v) != ""
  {
  }

  /** The amount an order adds to the revenue: `order.total || 0`. */
  function Amount(o: Order): (r: int)
    ensures o.total.JNum? ==> r == o.total.n
    ensures !o.total.JNum? ==> r == 0
  {
    if o.total.JNum? then o.total.n else 0
  }

  predicate HasTotal(o: Order) {
    o.total.JNum?
  }

  /** `orders.reduce((sum, order) => sum + (order.total || 0), 0)`. */
  function Revenue(orders: seq<Order>): int {
    SumOf(orders, Amount)
  }

  /** Missing totals count as nothing: the revenue is the sum over the
      orders that have a total. */
  lemma {:induction false} RevenueOfTotalled(orders: seq<Order>)
    ensures Revenue(orders) == SumOf(Filter(orders, HasTotal), Amount)
  {
    if |orders| > 0 {
      RevenueOfTotalled(orders[1..]);
    }
  }

  /** The revenue of two lists of orders is the sum of their revenues. */
  lemma RevenueAppend(a: seq<Order>, b: seq<Order>)
    ensures Revenue(a + b) == Revenue(a) + Revenue(b)
  {
    SumOfAppend(a, b, Amount);
  }

  /** With no negative totals the revenue is at least every order's total. */
  lemma RevenueBoundsTotals(orders: seq<Order>)
    requires forall i :: 0 <= i < |orders| ==> Amount(orders[i]) >= 0
    ensures Revenue(orders) >= 0
    ensures forall i :: 0 <= i < |orders| ==> Amount(orders[i]) <= Revenue(orders)
  {
    SumOfNonNegative(orders, Amount);
  }

  /** A number reader for text, as `parseFloat` reads its leading number:
      None when the text does not start with one (the result is NaN). */
  type NumberParser = string -> Option<int>

  /** `parseFloat(v) || 0`: a number is kept, a text is read by
      `parseNumber`, and anything unreadable counts as 0. */
  function NumberOr0(v: Json, parseNumber: NumberParser): (r: int)
    ensures v.JNum? ==> r == v.n
    ensures v.JStr? && parseNumber(v.s).Some? ==> r == parseNumber(v.s).value
    ensures v.JStr? && parseNumber(v.s).None? ==> r == 0
    ensures !v.JNum? && !v.JStr? ==> r == 0
  {
    match v
    case JNum(n) => n
    case JStr(s) => if parseNumber(s).Some? then parseNumber(s).value else 0
    case _ => 0
  }

  /** The two readings of a total agree on every value that is not text:
      `parseFloat` of a number is the number, and of null or a boolean is
      NaN, which `|| 0` turns into 0 as `order.total || 0` does. */
  lemma TotalReadingsAgree(o: Order, parseNumber: NumberParser)
    ensures !o.total.JStr? ==> NumberOr0(o.total, parseNumber) == Amount(o)
    ensures Amount(o) != 0 ==> HasTotal(o)
  {
  }

  /** A total written as decimal text is read back as that number by a
      reader that inverts `n.toString()`. */
  lemma TextTotalRoundTrip(n: int, parseNumber: NumberParser)
    requires parseNumber(IntToString(n)) == Some(n)
    ensures NumberOr0(JStr(IntToString(n)), parseNumber) == n
    ensures NumberOr0(JNum(n), parseNumber) == n
  {
  }

  /** The revenue of the order list: `parseFloat(order.total) || 0` summed. */
  function ParsedRevenue(orders: seq<Order>, parseNumber: NumberParser): int {
    SumOf(orders, (o: Order) => NumberOr0(o.total, parseNumber))
  }

  /** The two revenue cards agree whenever no total is stored as text. */
  lemma {:induction false} RevenuesAgree(orders: seq<Order>, parseNumber: NumberParser)
    requires forall i :: 0 <= i < |orders| ==> !orders[i].total.JStr?
    ensures ParsedRevenue(orders, parseNumber) == Revenue(orders)
  {
    if |orders| > 0 {
      assert forall i :: 0 <= i < |orders[1..]| ==> orders[1..][i] == orders[i + 1];
      RevenuesAgree(orders[1..], parseNumber);
    }
  }

  /** `orders.filter(order => order.status?.name === name).length`. */
  function StatusCount(orders: seq<Order>, name: string): (n: nat)
    ensures n <= |orders|
    ensures n == |Filter(orders, (o: Order) => StatusName(o) == JStr(name))|
  {
    CountIsFilterLength(orders, (o: Order) => StatusName(o) == JStr(name));
    CountWhere(orders, (o: Order) => StatusName(o) == JStr(name))
  }

  /** An order has one status, so counts of two different statuses never
      add up to more than the number of orders. */
  lemma StatusCountsDisjoint(orders: seq<Order>, a: string, b: string)
    requires a != b
    ensures StatusCount(orders, a) + StatusCount(orders, b) <= |orders|
  {
    DisjointCounts(orders, (o: Order) => StatusName(o) == JStr(a), (o: Order) => StatusName(o) == JStr(b));
  }
}
