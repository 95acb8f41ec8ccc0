/** The blogs page: a form with a rich-text description whose save always
    resets and closes it. */
module BlogsPage {
  import opened Basics
  import opened Forms

  /** The empty blog form. */
  const Defaults: Record := map[
    "title" := JStr(""), "sub_title" := JStr(""), "description" := JStr(""), "image" := JStr(""),
    "is_featured" := JBool(false), "order" := JStr("")]

  /** The six fields a blog post is edited through. */
  const Fields: set<string> := {"title", "sub_title", "description", "image", "is_featured", "order"}

  /** `handleInputChange`: checkboxes give their checked state, other inputs
      their value; no other field changes. */
  function HandleInputChange(p: Page, ev: InputEvent): (r: Page)
    ensures r.editing == p.editing && r.open == p.open
    ensures r.form == InputChange(p.form, ev)
  {
    p.(form := InputChange(p.form, ev))
  }

  /** `handleDescriptionChange`: the editor's HTML becomes the description;
      nothing else changes. */
  function HandleDescriptionChange(p: Page, html: string): (r: Page)
    ensures r.editing == p.editing && r.open == p.open
    ensures r.form.Keys == p.form.Keys + {"description"} && r.form["description"] == JStr(html)
    ensures forall k :: k in p.form && k != "description" ==> r.form[k] == p.form[k]
  {
    p.(form := p.form["description" := JStr(html)])
  }

  /** `handleSubmit`: update the edited post or create a new one, then
      reload, reset and close. The service hands back its error instead of
      throwing, so the reply never changes the outcome. */
  function HandleSubmit(p: Page, reply: Option<string>): (r: Step)
    ensures r.calls == [SaveCall(p)]
    ensures r.reload && r.page == Closed(Defaults)
  {
    Step([SaveCall(p)], Closed(Defaults), true)
  }

  /** A failed save looks exactly like a successful one. */
  lemma SubmitIgnoresReply(p: Page, error: string)
    ensures HandleSubmit(p, Some(error)) == HandleSubmit(p, None)
  {
  }

  /** `handleEdit`: remember the post and copy exactly its six fields. */
  function HandleEdit(p: Page, blog: Record): (r: Page)
    ensures r.open && r.editing == Some(blog)
    ensures r.form.Keys == Fields && forall k :: k in Fields ==> r.form[k] == Get(blog, k)
  {
    OpenForEdit(blog, Fields)
  }

  /** "Add new": the empty form for a new post. */
  function AddNew(p: Page): (r: Page)
    ensures r.open && r.editing.None? && r.form == Defaults && r.form.Keys == Fields
  {
    OpenForCreate(Defaults)
  }

  /** "Cancel": hide the form and forget the edited post; the form data is
      left as it was. */
  function Cancel(p: Page): (r: Page)
    ensures !r.open && r.editing.None? && r.form == p.form
  {
    p.(open := false, editing := None)
  }

  /** `handleDelete`: after confirmation, delete and reload whatever the
      service replied. */
  function HandleDelete(id: Json, confirmed: bool, reply: Option<string>): (d: Deletion)
    ensures d.calls == (if confirmed then [Delete(id)] else [])
    ensures d.reload <==> confirmed
  {
    ConfirmedDelete(id, confirmed, reply, true)
  }
}
