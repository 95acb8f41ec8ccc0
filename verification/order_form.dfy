/** The order form: its default and seeded state, the payload it submits,
    and when it reports success to the list that opened it. */
module OrderForm {
  import opened Basics
  import opened Listing
  import opened Forms
  import opened Orders

  /** The empty form: currency 'TRY', status 1, every other field blank. */
  const Defaults: Record := map[
    "user_name" := JStr(""), "products" := JStr(""), "total" := JStr(""), "currency" := JStr("TRY"),
    "delivery_date" := JStr(""), "delivery_time" := JStr(""), "delivery_notes" := JStr(""),
    "status_id" := JNum(1), "appointment_date" := JStr("")]

  /** The appointment as the date-time input takes it: the stored text cut
      to its first 16 characters (`YYYY-MM-DDTHH:MM`), or blank. */
  function Appointment(stored: Json): (r: Json)
    ensures r.JStr? && |r.s| <= 16
    ensures stored.JStr? ==> r.s == Take(stored.s, 16)
    ensures !stored.JStr? ==> r == JStr("")
  {
    if stored.JStr? && stored.s != "" then JStr(Take(stored.s, 16)) else JStr("")
  }

  /** The form seeded from an order: each field from the order when truthy,
      else its default; the appointment cut to 16 characters. */
  function Seed(order: Record): (r: Record)
    ensures r.Keys == Defaults.Keys
    ensures forall k :: k in Defaults && k != "appointment_date" && Truthy(Get(order, k)) ==> r[k] == order[k]
    ensures forall k :: k in Defaults && k != "appointment_date" && !Truthy(Get(order, k)) ==> r[k] == Defaults[k]
    ensures r["appointment_date"] == Appointment(Get(order, "appointment_date"))
  {
    SeedOrDefault(order, Defaults)["appointment_date" := Appointment(Get(order, "appointment_date"))]
  }

  /** Seeding from an order with nothing set gives the empty form. */
  lemma SeedOfBlankOrder()
    ensures Seed(map[]) == Defaults
  {
    SeedOfEmptyIsDefaults(Defaults);
    assert Seed(map[]).Keys == Defaults.Keys;
  }

  /** An appointment of at most 16 characters survives seeding unchanged. */
  lemma ShortAppointmentKept(order: Record)
    requires Get(order, "appointment_date").JStr? && |Get(order, "appointment_date").s| <= 16
    ensures Seed(order)["appointment_date"] == Get(order, "appointment_date")
  {
  }

  /** The submitted data: the form with total read as a number (0 when
      unreadable) and a blank appointment sent as null. */
  function Payload(form: Record, parseNumber: NumberParser): (r: Record)
    ensures r.Keys == form.Keys + {"total", "appointment_date"}
    ensures r["total"] == JNum(NumberOr0(Get(form, "total"), parseNumber))
    ensures Truthy(Get(form, "appointment_date")) ==> r["appointment_date"] == form["appointment_date"]
    ensures !Truthy(Get(form, "appointment_date")) ==> r["appointment_date"] == JNull
    ensures forall k :: k in form && k !in {"total", "appointment_date"} ==> r[k] == form[k]
  {
    form["total" := JNum(NumberOr0(Get(form, "total"), parseNumber))]
        ["appointment_date" := Or(Get(form, "appointment_date"), JNull)]
  }

  /** What a submit did: the calls made, whether `onSave` and `onClose` were
      called, and the loading flag afterwards. */
  datatype Submitted = Submitted(calls: seq<Call>, saved: bool, loading: bool)

  /** `handleSubmit` as written: the create branch calls
      `ordersService.createOrder`, which the orders service does not define,
      so it throws before any call; the error is caught and only the
      loading flag is cleared. */
  function SubmitAsWritten(order: Option<Record>, form: Record, parseNumber: NumberParser, reply: Option<string>): (r: Submitted)
    ensures !r.loading
    ensures order.Some? ==> r.calls == [Update(Get(order.value, "id"), Payload(form, parseNumber))] && (r.saved <==> reply.None?)
    ensures order.None? ==> r.calls == [] && !r.saved
  {
    match order
    case Some(o) => Submitted([Update(Get(o, "id"), Payload(form, parseNumber))], reply.None?, false)
    case None => Submitted([], false, false)
  }

  /** `handleSubmit` with a create call the service provides: update the
      given order or create a new one, and report success (`onSave`, then
      `onClose`) exactly when the service returns no error. */
  function Submit(order: Option<Record>, form: Record, parseNumber: NumberParser, reply: Option<string>): (r: Submitted)
    ensures !r.loading
    ensures |r.calls| == 1 && r.calls[0] == SaveCall(Page(Payload(form, parseNumber), order, true))
    ensures r.saved <==> reply.None?
  {
    Submitted([SaveCall(Page(Payload(form, parseNumber), order, true))], reply.None?, false)
  }

  /** As written, a new order is never saved, whatever the service would
      have replied; with the create call, it is saved on success. */
  lemma CreateNeverSaves(form: Record, parseNumber: NumberParser)
    ensures !SubmitAsWritten(None, form, parseNumber, None).saved
    ensures SubmitAsWritten(None, form, parseNumber, None).calls == []
    ensures Submit(None, form, parseNumber, None).saved
    ensures Submit(None, form, parseNumber, None).calls == [Create(Payload(form, parseNumber))]
  {
  }

  /** On an existing order the two agree. */
  lemma UpdatePathsAgree(o: Record, form: Record, parseNumber: NumberParser, reply: Option<string>)
    ensures SubmitAsWritten(Some(o), form, parseNumber, reply) == Submit(Some(o), form, parseNumber, reply)
  {
  }
}
