/** The brands page: a name-searched list and a three-field form that every
    way out resets. */
module BrandsPage {
  import opened Basics
  import opened Listing
  import opened Forms
  import opened Search

  /** The empty brand form. */
  const Defaults: Record := map["name" := JStr(""), "order" := JStr(""), "image" := JStr("")]

  /** The three fields a brand is edited through. */
  const Fields: set<string> := {"name", "order", "image"}

  /** `handleInputChange`: the input's value goes into the named field,
      checkbox or not; no other field changes. */
  function HandleInputChange(p: Page, ev: InputEvent): (r: Page)
    ensures r.editing == p.editing && r.open == p.open
    ensures r.form == ValueChange(p.form, ev)
  {
    p.(form := ValueChange(p.form, ev))
  }

  /** "Add new": the empty form for a new brand. */
  function AddNew(p: Page): (r: Page)
    ensures r.open && r.editing.None? && r.form == Defaults
  {
    OpenForCreate(Defaults)
  }

  /** "Cancel": hide the form, forget the edited brand and reset the data. */
  function Cancel(p: Page): (r: Page)
    ensures !r.open && r.editing.None? && r.form == Defaults
  {
    Closed(Defaults)
  }

  /** Cancelling and adding anew leave the same empty form; only visibility
      differs. */
  lemma AddNewAndCancelAgree(p: Page, q: Page)
    ensures AddNew(p).form == Cancel(q).form == Defaults
    ensures AddNew(p).editing == Cancel(q).editing
  {
  }

  /** `handleSubmit`: update the edited brand or create a new one, then
      reload, reset and close, without looking at the service's error. */
  function HandleSubmit(p: Page, reply: Option<string>): (r: Step)
    ensures r.calls == [SaveCall(p)]
    ensures r.reload && r.page == Cancel(p)
  {
    Step([SaveCall(p)], Closed(Defaults), true)
  }

  /** A failed save looks exactly like a successful one. */
  lemma SubmitIgnoresReply(p: Page, error: string)
    ensures HandleSubmit(p, Some(error)) == HandleSubmit(p, None)
  {
  }

  /** `handleEdit`: remember the brand and copy exactly name, order and image. */
  function HandleEdit(p: Page, brand: Record): (r: Page)
    ensures r.open && r.editing == Some(brand)
    ensures r.form.Keys == Fields && forall k :: k in Fields ==> r.form[k] == Get(brand, k)
  {
    OpenForEdit(brand, Fields)
  }

  /** `handleDelete`: after confirmation, delete and reload whatever the
      service replied. */
  function HandleDelete(id: Json, confirmed: bool, reply: Option<string>): (d: Deletion)
    ensures d.calls == (if confirmed then [Delete(id)] else [])
    ensures d.reload <==> confirmed
  {
    ConfirmedDelete(id, confirmed, reply, true)
  }

  /** `filteredBrands`: the brands whose name contains the term, ignoring
      case, in their loaded order. */
  function FilterBrands(brands: seq<Record>, term: string): (r: seq<Record>)
    ensures Subseq(r, brands)
    ensures forall b :: b in r <==> b in brands && NameMatches(b, term)
    ensures |r| == CountWhere(brands, (x: Record) => NameMatches(x, term))
    ensures term == "" && (forall i :: 0 <= i < |brands| ==> Get(brands[i], "name").JStr?) ==> r == brands
  {
    FilterByName(brands, term)
  }
}
