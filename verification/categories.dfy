/** The categories page: a name-searched list and a two-field form that
    reloads only after a successful save but always resets and closes. */
module CategoriesPage {
  import opened Basics
  import opened Listing
  import opened Forms
  import opened Search

  /** The empty category form. */
  const Defaults: Record := map["name" := JStr(""), "order" := JStr("")]

  /** The two fields a category is edited through. */
  const Fields: set<string> := {"name", "order"}

  /** `handleInputChange`: the input's value goes into the named field; no
      other field changes. */
  function HandleInputChange(p: Page, ev: InputEvent): (r: Page)
    ensures r.editing == p.editing && r.open == p.open
    ensures r.form == ValueChange(p.form, ev)
  {
    p.(form := ValueChange(p.form, ev))
  }

  /** "Add new": the empty form for a new category. */
  function AddNew(p: Page): (r: Page)
    ensures r.open && r.editing.None? && r.form == Defaults
  {
    OpenForCreate(Defaults)
  }

  /** "Cancel": hide the form, forget the edited category and reset the data. */
  function Cancel(p: Page): (r: Page)
    ensures !r.open && r.editing.None? && r.form == Defaults
  {
    Closed(Defaults)
  }

  /** `handleSubmit`: update the edited category or create a new one;
      reload only when the service reports no error, then reset and close
      in every case. */
  function HandleSubmit(p: Page, reply: Option<string>): (r: Step)
    ensures r.calls == [SaveCall(p)]
    ensures r.reload <==> reply.None?
    ensures r.page == Closed(Defaults)
  {
    Step([SaveCall(p)], Closed(Defaults), reply.None?)
  }

  /** A failed save loses the typed data: the form afterwards is the empty
      one, the same as after a successful save. */
  lemma FailedSaveDiscardsInput(p: Page, error: string)
    ensures HandleSubmit(p, Some(error)).page == HandleSubmit(p, None).page == Cancel(p)
    ensures !HandleSubmit(p, Some(error)).reload
  {
  }

  /** `handleEdit`: remember the category and copy exactly name and order. */
  function HandleEdit(p: Page, category: Record): (r: Page)
    ensures r.open && r.editing == Some(category)
    ensures r.form.Keys == Fields && forall k :: k in Fields ==> r.form[k] == Get(category, k)
  {
    OpenForEdit(category, Fields)
  }

  /** `handleDelete`: after confirmation, delete; reload only on success. */
  function HandleDelete(id: Json, confirmed: bool, reply: Option<string>): (d: Deletion)
    ensures d.calls == (if confirmed then [Delete(id)] else [])
    ensures d.reload <==> confirmed && reply.None?
  {
    ConfirmedDelete(id, confirmed, reply, false)
  }

  /** `filteredCategories`: the categories whose name contains the term,
      ignoring case, in their loaded order; the empty term keeps every
      category with a text name. */
  function FilterCategories(categories: seq<Record>, term: string): (r: seq<Record>)
    ensures Subseq(r, categories)
    ensures forall c :: c in r <==> c in categories && NameMatches(c, term)
    ensures |r| == CountWhere(categories, (x: Record) => NameMatches(x, term))
    ensures term == "" && (forall i :: 0 <= i < |categories| ==> Get(categories[i], "name").JStr?) ==> r == categories
  {
    FilterByName(categories, term)
  }
}
